/** Point-to-point packets: stop-and-wait with bounded retries, and a sequence byte
    by which the receiver drops second copies. */
module MoteinoRF {
  import opened Words
  import opened Site

  const RESERVED: u8 := 255       // "nothing received yet"
  const BROADCAST: u8 := 255

  /** What the air does to one transmission: whether it arrives, and whether the
      acknowledgement it causes gets back in time. */
  datatype Outcome = Outcome(arrives: bool, ackBack: bool)
  {
    predicate Acked() { arrives && ackBack }
  }

  /** One direction of a link: the sender's next number, the receiver's last one, and
      the indices of the messages handed to the protocol layer, in order. */
  datatype Link = Link(next: u8, last: u8, handed: seq<nat>)

  /** A sender that has just started, and a receiver that saw number `last` before. */
  function Started(last: u8): Link { Link(0, last, []) }

  /** Both have just started. */
  const FRESH := Started(RESERVED)

  function Bump(sn: u8): u8 { if sn == 254 then 0 else Wrap8(sn + 1) }

  /** A copy with number `sn` of message `i` reaches the receiver. */
  function Deliver(l: Link, sn: u8, i: nat): Link
  {
    if sn == l.last then l
    else l.(last := if sn != RESERVED then sn else l.last, handed := l.handed + [i])
  }

  /** Transmissions of message `i` until one is acknowledged or the tries are used up. */
  function Transmit(l: Link, sn: u8, i: nat, tries: seq<Outcome>): Link
    decreases |tries|
  {
    if tries == [] then l
    else
      var l1 := if tries[0].arrives then Deliver(l, sn, i) else l;
      if tries[0].Acked() then l1 else Transmit(l1, sn, i, tries[1..])
  }

  /** The number advances whether or not an acknowledgement came. */
  function Send(l: Link, i: nat, tries: seq<Outcome>): Link
  {
    Transmit(l, l.next, i, tries).(next := Bump(l.next))
  }

  /** Sends messages number `from`, `from + 1`, ... with the given fates. */
  function SendAll(l: Link, fates: seq<seq<Outcome>>): Link
    decreases |fates|
  {
    if fates == [] then l
    else Send(SendAll(l, fates[..|fates| - 1]), |fates| - 1, fates[|fates| - 1])
  }

  /** Whether any transmission of a message arrives. (All those before the first
      acknowledged one are made; one that is acknowledged has arrived.) */
  predicate Arrives(tries: seq<Outcome>)
  {
    exists k :: 0 <= k < |tries| && tries[k].arrives
  }

  /** The latest message before `n` of which a copy arrived, or -1. */
  function LastArrived(fates: seq<seq<Outcome>>, n: nat): (j: int)
    requires n <= |fates|
    ensures -1 <= j < n
    ensures j >= 0 ==> Arrives(fates[j])
    ensures forall k | j < k < n :: !Arrives(fates[k])
  {
    if n == 0 then -1 else if Arrives(fates[n - 1]) then n - 1 else LastArrived(fates, n - 1)
  }

  /** Message `i` meets the receiver with the number it saw last: that of the last
      arrived message, or `last` if none has arrived yet. */
  predicate Aliased(last: u8, fates: seq<seq<Outcome>>, i: nat)
    requires i < |fates|
  {
    var j := LastArrived(fates, i);
    if j >= 0 then (i - j) % 255 == 0 else i % 255 == last
  }

  /** Copies after the first of one message change nothing. */
  lemma {:induction false} TransmitOnce(l: Link, sn: u8, i: nat, tries: seq<Outcome>)
    requires sn != RESERVED
    ensures Transmit(l, sn, i, tries) == if Arrives(tries) then Deliver(l, sn, i) else l
    decreases |tries|
  {
    if tries != [] {
      var l1 := if tries[0].arrives then Deliver(l, sn, i) else l;
      assert forall k | 0 <= k < |tries| - 1 :: tries[1..][k] == tries[k + 1];
      if !tries[0].Acked() { TransmitOnce(l1, sn, i, tries[1..]); }
      if Arrives(tries) && !tries[0].arrives {
        var k :| 0 <= k < |tries| && tries[k].arrives;
        assert tries[1..][k - 1].arrives;
      }
    }
  }

  /** The numbers on both sides after any run. */
  lemma {:induction false} Numbers(last: u8, fates: seq<seq<Outcome>>)
    ensures var l := SendAll(Started(last), fates);
            var j := LastArrived(fates, |fates|);
            l.next == |fates| % 255 && l.last == if j < 0 then last else j % 255
    decreases |fates|
  {
    hide Transmit, Arrives, Bump;
    if fates != [] {
      var n := |fates| - 1;
      var before := fates[..n];
      Numbers(last, before);
      LastArrivedPrefix(fates, n, n);
      var l := SendAll(Started(last), before);
      NextNumber(n);
      TransmitOnce(l, l.next, n, fates[n]);
    }
  }

  lemma NextNumber(n: nat)
    ensures n % 255 < RESERVED && Bump(n % 255) == (n + 1) % 255
  {}

  lemma {:induction false} LastArrivedPrefix(fates: seq<seq<Outcome>>, n: nat, m: nat)
    requires m <= n <= |fates|
    ensures LastArrived(fates[..n], m) == LastArrived(fates, m)
  {
    if m > 0 {
      assert fates[..n][m - 1] == fates[m - 1];
      LastArrivedPrefix(fates, n, m - 1);
    }
  }

  lemma HandedNext(last: u8, fates: seq<seq<Outcome>>)
    requires fates != []
    ensures var n := |fates| - 1;
            SendAll(Started(last), fates).handed ==
              SendAll(Started(last), fates[..n]).handed
              + (if Arrives(fates[n]) && !Aliased(last, fates, n) then [n] else [])
  {
    hide Transmit, Arrives;
    var n := |fates| - 1;
    Numbers(last, fates[..n]);
    LastArrivedPrefix(fates, n, n);
    var l := SendAll(Started(last), fates[..n]);
    TransmitOnce(l, l.next, n, fates[n]);
    var j := LastArrived(fates, n);
    if j >= 0 { SameNumber(j, n); }
  }

  ghost predicate Ascending(h: seq<nat>)
  {
    forall a, b | 0 <= a < b < |h| :: h[a] < h[b]
  }

  predicate HandedOver(last: u8, fates: seq<seq<Outcome>>, i: nat)
  {
    i < |fates| && Arrives(fates[i]) && !Aliased(last, fates, i)
  }

  /** The exact fate of every message in every lossy run of a sender that has just
      started, whatever the receiver saw before: it is handed over if a copy arrives,
      unless its distance from the last arrived message is a multiple of 255, or none
      has arrived yet and its number is the one seen before; in send order; never
      twice. */
  lemma {:induction false} HandedExactly(last: u8, fates: seq<seq<Outcome>>)
    ensures var h := SendAll(Started(last), fates).handed;
            Ascending(h) && (forall i: nat :: i in h <==> HandedOver(last, fates, i))
    decreases |fates|
  {
    hide SendAll, Arrives;
    if fates == [] {
      NoneSent(last);
    } else {
      var n := |fates| - 1;
      var before := fates[..n];
      HandedExactly(last, before);
      HandedNext(last, fates);
      var h := SendAll(Started(last), before).handed;
      forall i: nat | i < n ensures HandedOver(last, before, i) == HandedOver(last, fates, i) {
        LastArrivedPrefix(fates, n, i);
      }
      forall k | 0 <= k < |h| ensures h[k] < n {
        assert h[k] in h;
      }
    }
  }

  lemma NoneSent(last: u8)
    ensures SendAll(Started(last), []).handed == []
  {}

  lemma SameNumber(j: nat, n: nat)
    requires j <= n
    ensures j % 255 == n % 255 <==> (n - j) % 255 == 0
  {}

  /** At most 253 messages in a row wholly lost: every message of which a copy
      arrives is handed over exactly once. */
  lemma ExactlyOnce(fates: seq<seq<Outcome>>, i: nat)
    requires i < |fates| && Arrives(fates[i])
    requires LastArrived(fates, i) < 0 || i - LastArrived(fates, i) <= 254
    ensures multiset(SendAll(FRESH, fates).handed)[i] == 1
  {
    hide SendAll, Arrives;
    HandedExactly(RESERVED, fates);
    assert HandedOver(RESERVED, fates, i);
    OnceInIncreasing(SendAll(FRESH, fates).handed, i);
  }

  lemma {:induction false} OnceInIncreasing(h: seq<nat>, i: nat)
    requires Ascending(h)
    ensures multiset(h)[i] == if i in h then 1 else 0
  {
    if h != [] {
      var n := |h| - 1;
      assert h == h[..n] + [h[n]];
      OnceInIncreasing(h[..n], i);
    }
  }

  /** A sender that restarts counts from 0 again. Of the messages it sends from then on
      exactly those are dropped that the receiver takes for the last one it saw; until
      one arrives, that is the last message that arrived in the earlier life. */
  lemma RestartedSender(earlier: seq<seq<Outcome>>, fates: seq<seq<Outcome>>, i: nat)
    ensures var j := LastArrived(earlier, |earlier|);
            var l := SendAll(FRESH, earlier).(next := 0, handed := []);
            i in SendAll(l, fates).handed <==>
              && i < |fates| && Arrives(fates[i])
              && (var k := LastArrived(fates, i);
                  if k >= 0 then (i - k) % 255 != 0 else j >= 0 ==> (i - j) % 255 != 0)
  {
    hide SendAll, Arrives;
    Numbers(RESERVED, earlier);
    var j := LastArrived(earlier, |earlier|);
    var l := SendAll(FRESH, earlier).(next := 0, handed := []);
    assert l == Started(l.last);
    HandedExactly(l.last, fates);
    if j >= 0 { SameRemainder(i, j); }
    assert i % 255 != RESERVED;
  }

  lemma SameRemainder(i: nat, j: nat)
    ensures i % 255 == j % 255 <==> (i - j) % 255 == 0
  {}

  // ----- the two radios -----

  datatype Handed = Nothing | Frame(data: seq<u8>)

  class Radio {
    const nextS: array<u8>
    const lastS: array<u8>

    ghost predicate Valid()
      reads this, nextS
    {
      && nextS != lastS && nextS.Length == MAX_STATIONS && lastS.Length == MAX_STATIONS
      && forall i | 0 <= i < MAX_STATIONS :: nextS[i] != RESERVED
    }

    constructor ()
      ensures Valid() && fresh(nextS) && fresh(lastS)
      ensures forall i | 0 <= i < MAX_STATIONS :: nextS[i] == 0 && lastS[i] == RESERVED
    {
      nextS := new u8[MAX_STATIONS](_ => 0);
      lastS := new u8[MAX_STATIONS](_ => RESERVED);
    }

    /** One turn of the receive loop on a packet of at most 61 bytes. */
    method Receive(sender: u8, target: u8, data: seq<u8>) returns (h: Handed)
      requires Valid() && |data| <= 61
      modifies lastS
      ensures |data| <= 5 ==> h == Nothing
      ensures |data| > 5 && target == BROADCAST ==> h == Frame(data)
      ensures |data| > 5 && target != BROADCAST ==>
                h == if sender < MAX_STATIONS && data[0] != old(lastS[sender]) then Frame(data[1..]) else Nothing
      ensures lastS[..] == if |data| > 5 && target != BROADCAST && sender < MAX_STATIONS && data[0] != RESERVED
                           then old(lastS[..])[sender := data[0]] else old(lastS[..])
    {
      h := Nothing;
      if |data| > 5 {
        if target == BROADCAST {
          h := Frame(data);
        } else if sender < MAX_STATIONS {
          if data[0] != lastS[sender] {
            if data[0] != RESERVED { lastS[sender] := data[0]; }
            h := Frame(data[1..]);
          } else {
            assert data[0] != RESERVED ==> lastS[..] == old(lastS[..])[sender := data[0]];
          }
        }
      }
    }
  }

  /** Station `me` sends `msg` to station `to`: the retry loop, with `tries` saying
      what becomes of each transmission; what the receiver hands over is collected.
      Tied to the link: only the two counters of this direction change. */
  method SendPacket(a: Radio, me: u8, b: Radio, to: u8, msg: seq<u8>, tries: seq<Outcome>)
    returns (acked: bool, handed: seq<seq<u8>>)
    requires a.Valid() && b.Valid() && a.nextS != b.lastS && a.nextS != b.nextS
    requires me < MAX_STATIONS && to < MAX_STATIONS && 5 <= |msg| <= 60
    modifies a.nextS, b.lastS
    ensures var l := Link(old(a.nextS[to]), old(b.lastS[me]), []);
            var r := Send(l, 0, tries);
            && a.nextS[..] == old(a.nextS[..])[to := r.next]
            && b.lastS[..] == old(b.lastS[..])[me := r.last]
            && handed == seq(|r.handed|, _ => msg)
    ensures acked <==> exists k :: 0 <= k < |tries| && tries[k].Acked()
    ensures a.Valid()
  {
    var sn := a.nextS[to];
    var buf := [sn] + msg;
    handed, acked := [], false;
    var i := 0;
    ghost var l := Link(sn, b.lastS[me], []);
    while i < |tries| && !acked
      invariant 0 <= i <= |tries|
      invariant l.next == sn && a.nextS[..] == old(a.nextS[..])
      invariant b.lastS[..] == old(b.lastS[..])[me := l.last]
      invariant handed == seq(|l.handed|, _ => msg)
      invariant acked <==> exists k :: 0 <= k < i && tries[k].Acked()
      invariant Transmit(Link(sn, old(b.lastS[me]), []), sn, 0, tries) ==
                if acked then l else Transmit(l, sn, 0, tries[i..])
    {
      if tries[i].arrives {
        var h := b.Receive(me, to, buf);
        if h.Frame? { handed := handed + [h.data]; }
        l := Deliver(l, sn, 0);
        acked := tries[i].ackBack;
      }
      i := i + 1;
    }
    if sn == 254 { a.nextS[to] := 0; } else { a.nextS[to] := sn + 1; }
  }
}
