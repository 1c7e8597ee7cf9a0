/** The serial output board: a chain of 8-bit shift registers driven pin by pin. */
module SerialBoard {
  import opened Words

  const LOCAL_NUM_CHANNELS: nat := 48

  /** One rising clock edge: every bit moves on by one place, `d` enters at the front. */
  function Clocked(chain: seq<bool>, d: bool): (r: seq<bool>)
    ensures |r| == |chain|
  {
    if chain == [] then [] else [d] + chain[..|chain| - 1]
  }

  /** The bit that is sent as number `t`: registers in order, high bit first. */
  predicate SentBit(out: seq<u8>, t: nat)
    requires t / 8 < |out|
  {
    Bit(out[t / 8], 7 - t % 8)
  }

  predicate ChannelBit(out: seq<u8>, c: nat)
    requires c / 8 < |out|
  {
    Bit(out[c / 8], c % 8)
  }

  /** The pin of the chain of `n` registers that shows channel 8k+j is 8(n-1-k)+j. */
  function PinOf(n: nat, c: nat): int { 8 * (n - 1 - c / 8) + c % 8 }

  ghost predicate Shows(out: seq<u8>, pins: seq<bool>)
    requires |out| * 8 >= |pins|
  {
    |pins| % 8 == 0 && forall c | 0 <= c < |pins| :: PinShows(out, pins, c)
  }

  ghost predicate PinShows(out: seq<u8>, pins: seq<bool>, c: nat)
    requires |out| * 8 >= |pins| && c < |pins| && |pins| % 8 == 0
  {
    pins[PinOf(|pins| / 8, c)] <==> ChannelBit(out, c)
  }

  /** After `t` of the `8n` bits, the front of the chain holds them, last one first. */
  ghost predicate Shifted(out: seq<u8>, chain: seq<bool>, t: nat)
    requires t <= |chain| <= 8 * |out|
  {
    forall p | 0 <= p < t :: chain[p] == SentBit(out, t - 1 - p)
  }

  lemma ShiftStep(out: seq<u8>, chain: seq<bool>, t: nat)
    requires t < |chain| <= 8 * |out| && Shifted(out, chain, t)
    ensures Shifted(out, Clocked(chain, SentBit(out, t)), t + 1)
  {
    var next := Clocked(chain, SentBit(out, t));
    forall p | 0 <= p < t + 1 ensures next[p] == SentBit(out, t - p) {
      if p > 0 { assert next[p] == chain[p - 1]; }
    }
  }

  lemma AllShifted(out: seq<u8>, chain: seq<bool>)
    requires |chain| <= 8 * |out| && |chain| % 8 == 0 && Shifted(out, chain, |chain|)
    ensures Shows(out, chain)
  {
    hide Bit, PinOf;
    forall c | 0 <= c < |chain| ensures PinShows(out, chain, c) {
      SentAs(|chain| / 8, c);
    }
  }

  /** Channel `c` is sent as bit number 8k + 7 - j, for c = 8k + j. */
  lemma SentAs(n: nat, c: nat)
    requires c < 8 * n
    ensures 0 <= PinOf(n, c) < 8 * n
    ensures var t := 8 * n - 1 - PinOf(n, c); t / 8 == c / 8 && 7 - t % 8 == c % 8
  {
    var k, j := c / 8, c % 8;
    assert c == 8 * k + j && 8 * n - 1 - PinOf(n, c) == 8 * k + (7 - j);
  }

  class LocalBoardSerial {
    const outState: array<u8>
    const numChannels: u8
    var ready: bool
    ghost var chain: seq<bool>    // the shift registers
    ghost var pins: seq<bool>     // their output latches

    ghost predicate Wired()
      reads this
    {
      && outState.Length == LOCAL_NUM_CHANNELS / 8 && numChannels <= LOCAL_NUM_CHANNELS
      && |chain| == |pins| == 8 * (numChannels / 8)
    }

    /** The latched outputs show the recorded state. */
    ghost predicate Valid()
      reads this, outState
    {
      Wired() && (ready ==> Shows(outState[..], pins))
    }

    /** Channels recorded as on. */
    ghost function Channels(): set<nat>
      requires Wired()
      reads this, outState
    {
      set c: nat | c < numChannels && ChannelBit(outState[..], c)
    }

    constructor (numChannels: u8, ghost power: seq<bool>)
      requires numChannels <= LOCAL_NUM_CHANNELS && |power| == 8 * (numChannels / 8)
      ensures Valid() && fresh(outState) && !ready && this.numChannels == numChannels && Channels() == {}
    {
      this.numChannels := numChannels;
      outState := new u8[LOCAL_NUM_CHANNELS / 8](_ => 0);
      ready, chain, pins := false, power, power;
      new;
      forall c: nat | c < numChannels ensures !ChannelBit(outState[..], c) { ZeroHasNoBits(c % 8); }
    }

    /** Clocks out all registers and latches them: also the periodic refresh. */
    method ShiftOut()
      requires Wired()
      modifies this`chain, this`pins
      ensures Wired() && Shows(outState[..], pins)
    {
      var iboard := 0;
      while iboard < numChannels / 8
        invariant 0 <= iboard <= numChannels / 8 && Wired()
        invariant Shifted(outState[..], chain, 8 * iboard)
      {
        ShiftRegister(iboard);
        iboard := iboard + 1;
      }
      AllShifted(outState[..], chain);
      pins := chain;
    }

    method ShiftRegister(iboard: nat)
      requires Wired() && iboard < numChannels / 8 && Shifted(outState[..], chain, 8 * iboard)
      modifies this`chain
      ensures Wired() && Shifted(outState[..], chain, 8 * iboard + 8)
    {
      hide Shifted, Clocked;
      var i := 0;
      while i < 8
        invariant 0 <= i <= 8 && Wired()
        invariant Shifted(outState[..], chain, 8 * iboard + i)
      {
        assert (8 * iboard + i) / 8 == iboard && (8 * iboard + i) % 8 == i;
        ShiftStep(outState[..], chain, 8 * iboard + i);
        chain := Clocked(chain, Bit(outState[iboard], 7 - i));
        i := i + 1;
      }
    }

    method ChannelOn(chan: u8) returns (ok: bool)
      requires Wired()
      modifies this`chain, this`pins, outState
      ensures Wired() && (ok || old(Valid()) ==> Valid())
      ensures ok <==> ready && chan < numChannels
      ensures Channels() == if ok then old(Channels()) + {chan as nat} else old(Channels())
    {
      if !ready || chan >= numChannels { return false; }
      outState[chan / 8] := SetBit8(outState[chan / 8], chan % 8);
      forall c: nat | c < numChannels
        ensures ChannelBit(outState[..], c) <==> c == chan || ChannelBit(old(outState[..]), c)
      {
        SetBitReads(old(outState[chan / 8]), chan % 8, c % 8);
      }
      ShiftOut();
      return true;
    }

    method ChannelOff(chan: u8) returns (ok: bool)
      requires Wired()
      modifies this`chain, this`pins, outState
      ensures Wired() && (ok || old(Valid()) ==> Valid())
      ensures ok <==> ready && chan < numChannels
      ensures Channels() == if ok then old(Channels()) - {chan as nat} else old(Channels())
    {
      if !ready || chan >= numChannels { return false; }
      outState[chan / 8] := ClearBit8(outState[chan / 8], chan % 8);
      forall c: nat | c < numChannels
        ensures ChannelBit(outState[..], c) <==> c != chan && ChannelBit(old(outState[..]), c)
      {
        ClearBitReads(old(outState[chan / 8]), chan % 8, c % 8);
      }
      ShiftOut();
      return true;
    }

    method AllChannelsOff() returns (ok: bool)
      requires Wired()
      modifies this`chain, this`pins, outState
      ensures Wired() && ok == ready && ((ok && numChannels > 0) || old(Valid()) ==> Valid())
      ensures Channels() == if ok then {} else old(Channels())
    {
      if !ready { return false; }
      var i := 0;
      while i < numChannels
        invariant 0 <= i <= numChannels && Wired() && (i > 0 || old(Valid()) ==> Valid())
        invariant Channels() == set c | c in old(Channels()) && c >= i
      {
        var off := ChannelOff(i);
        i := i + 1;
      }
      return true;
    }

    /** Refresh: the outputs are driven again and nothing changes. */
    method Loop() returns (ok: bool)
      requires Valid()
      modifies this`chain, this`pins
      ensures Valid() && ok == ready && Channels() == old(Channels())
      ensures ready ==> pins == old(pins)
    {
      if !ready { return false; }
      ghost var before := pins;
      ShiftOut();
      SamePins(outState[..], before, pins);
      return true;
    }

    /** Start-up: with any channels configured, all of them are driven off. */
    method Begin()
      requires Wired()
      modifies this, outState
      ensures numChannels != 0 ==> Valid() && ready && Channels() == {}
      ensures numChannels == 0 ==> Wired() && ready == old(ready) && Channels() == old(Channels())
    {
      if numChannels != 0 {
        ready := true;
        var ok := AllChannelsOff();
      }
    }
  }

  lemma SamePins(out: seq<u8>, a: seq<bool>, b: seq<bool>)
    requires |a| == |b| <= 8 * |out| && Shows(out, a) && Shows(out, b)
    ensures a == b
  {
    var n := |a| / 8;
    forall p | 0 <= p < |a| ensures a[p] == b[p] {
      var c := 8 * (n - 1 - p / 8) + p % 8;
      assert c / 8 == n - 1 - p / 8 && c % 8 == p % 8;
      assert PinShows(out, a, c) && PinShows(out, b, c);
    }
  }

  // ----- any sequence of calls -----

  datatype Call = TurnOn(c: u8) | TurnOff(c: u8) | AllOff | Refresh

  function Effect(on: set<nat>, k: Call, n: nat): set<nat>
  {
    match k
    case TurnOn(c) => if c < n then on + {c as nat} else on
    case TurnOff(c) => on - {c as nat}
    case AllOff => {}
    case Refresh => on
  }

  function After(ks: seq<Call>, n: nat): set<nat>
  {
    if ks == [] then {} else Effect(After(ks[..|ks| - 1], n), ks[|ks| - 1], n)
  }

  predicate Ends(k: Call, c: u8) { k == TurnOff(c) || k == AllOff }

  /** Channel `c` was turned on, and not off since. */
  predicate LastTurnedOn(ks: seq<Call>, c: u8)
  {
    exists i :: 0 <= i < |ks| && ks[i] == TurnOn(c) && forall j | i < j < |ks| :: !Ends(ks[j], c)
  }

  /** The fold of all calls contains exactly the existing channels last turned on. */
  lemma {:induction false} LastCallWins(ks: seq<Call>, n: nat, c: u8)
    ensures c as nat in After(ks, n) <==> c < n && LastTurnedOn(ks, c)
  {
    if ks != [] {
      var m := |ks| - 1;
      var before := ks[..m];
      LastCallWins(before, n, c);
      if LastTurnedOn(before, c) && !Ends(ks[m], c) {
        var i :| 0 <= i < m && before[i] == TurnOn(c) && forall j | i < j < m :: !Ends(before[j], c);
        assert ks[i] == TurnOn(c) && forall j | i < j < m :: ks[j] == before[j];
      }
      if LastTurnedOn(ks, c) {
        var i :| 0 <= i < |ks| && ks[i] == TurnOn(c) && forall j | i < j < |ks| :: !Ends(ks[j], c);
        if i < m {
          assert before[i] == TurnOn(c) && forall j | i < j < m :: before[j] == ks[j];
        }
      }
    }
  }

  /** Any sequence of calls to a board that starts with everything off: the channels on
      record are those last turned on, and so are the latched outputs, on the pins of
      the fixed map. */
  method RunCalls(b: LocalBoardSerial, ks: seq<Call>)
    requires b.Valid() && b.ready && b.Channels() == {}
    modifies b`chain, b`pins, b.outState
    ensures b.Valid() && b.Channels() == After(ks, b.numChannels)
    ensures forall c: u8 | c < 8 * (b.numChannels / 8) ::
              b.pins[PinOf(b.numChannels / 8, c)] <==> LastTurnedOn(ks, c)
  {
    var i := 0;
    while i < |ks|
      invariant 0 <= i <= |ks| && b.Valid() && b.Channels() == After(ks[..i], b.numChannels)
    {
      assert ks[..i + 1][..i] == ks[..i];
      var ok;
      match ks[i] {
        case TurnOn(c) => ok := b.ChannelOn(c);
        case TurnOff(c) => ok := b.ChannelOff(c);
        case AllOff => ok := b.AllChannelsOff();
        case Refresh => ok := b.Loop();
      }
      i := i + 1;
    }
    assert ks[..i] == ks;
    forall c: u8 | c < 8 * (b.numChannels / 8)
      ensures b.pins[PinOf(b.numChannels / 8, c)] <==> LastTurnedOn(ks, c)
    {
      LastCallWins(ks, b.numChannels, c);
      assert PinShows(b.outState[..], b.pins, c);
      assert c as nat in b.Channels() <==> ChannelBit(b.outState[..], c);
    }
  }
}
