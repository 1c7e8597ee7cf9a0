/** The parser as it runs: fixed buffers filled in place, bytes arriving in chunks. */
module HttpParser {
  import opened Words
  import opened HttpHeader

  /** Bytes `at`, `at + 1`, ... of a buffer are `s`. */
  ghost predicate Holds(a: seq<u8>, at: nat, s: seq<u8>)
  {
    at + |s| <= |a| && a[at..at + |s|] == s
  }

  /** The C string at `at` is `s`: its bytes and then a 0. */
  ghost predicate HoldsString(a: seq<u8>, at: nat, s: seq<u8>)
  {
    at + |s| < |a| && a[at..at + |s|] == s && a[at + |s|] == 0
  }

  ghost predicate HoldsPair(keys: seq<u8>, values: seq<u8>, i: nat, p: Pair)
  {
    && |p.key| < KEY_SIZE && |p.value| < VALUE_SIZE
    && HoldsString(keys, KEY_SIZE * i, p.key) && HoldsString(values, VALUE_SIZE * i, p.value)
  }

  ghost predicate HoldsPairs(keys: seq<u8>, values: seq<u8>, ps: seq<Pair>)
  {
    forall i | 0 <= i < |ps| :: HoldsPair(keys, values, i, ps[i])
  }

  predicate InValue(m: Mode) { m == Value || m == Percent || m == Percent1 }

  lemma PairsKept(k0: seq<u8>, k1: seq<u8>, v0: seq<u8>, v1: seq<u8>, ps: seq<Pair>)
    requires HoldsPairs(k0, v0, ps) && |k1| == |k0| && |v1| == |v0|
    requires KEY_SIZE * |ps| <= |k0| && k1[..KEY_SIZE * |ps|] == k0[..KEY_SIZE * |ps|]
    requires VALUE_SIZE * |ps| <= |v0| && v1[..VALUE_SIZE * |ps|] == v0[..VALUE_SIZE * |ps|]
    ensures HoldsPairs(k1, v1, ps)
  {
    forall i | 0 <= i < |ps| ensures HoldsPair(k1, v1, i, ps[i]) {
      StringKept(k0, k1, KEY_SIZE * i, ps[i].key, KEY_SIZE * |ps|);
      StringKept(v0, v1, VALUE_SIZE * i, ps[i].value, VALUE_SIZE * |ps|);
    }
  }

  lemma OnePairMore(keys: seq<u8>, values: seq<u8>, ps: seq<Pair>, p: Pair)
    requires HoldsPairs(keys, values, ps) && HoldsPair(keys, values, |ps|, p)
    ensures HoldsPairs(keys, values, ps + [p])
  {
    hide HoldsPair;
  }

  lemma StringKept(a: seq<u8>, b: seq<u8>, at: nat, s: seq<u8>, end: nat)
    requires HoldsString(a, at, s) && at + |s| < end <= |a| == |b| && b[..end] == a[..end]
    ensures HoldsString(b, at, s)
  {
    assert b[at..at + |s|] == b[..end][at..at + |s|];
    assert a[at..at + |s|] == a[..end][at..at + |s|];
    assert b[at + |s|] == b[..end][at + |s|];
  }

  class Parser {
    const keys: array<u8>
    const values: array<u8>
    const sPage: array<u8>
    var numPairs: nat
    var mode: Mode
    var got: nat
    var pageLen: nat
    var keyLen: nat
    var valueLen: nat
    ghost var p: Parse

    /** The buffers hold what the abstract parser has collected; every index the
        next byte can touch is inside its row. */
    ghost predicate Valid()
      reads this, keys, values, sPage
    {
      && keys.Length == NUM_KEY_VALUES * KEY_SIZE && values.Length == NUM_KEY_VALUES * VALUE_SIZE
      && sPage.Length > 0 && keys != values && keys != sPage && values != sPage
      && mode == p.mode && got == p.got && numPairs == |p.pairs| && pageLen == |p.page|
      && keyLen == |p.key| && valueLen == |p.value|
      && numPairs <= NUM_KEY_VALUES && pageLen < sPage.Length
      && (mode == SeekBlank || mode == FoundBlank || numPairs < NUM_KEY_VALUES)
      && keyLen < KEY_SIZE && valueLen < VALUE_SIZE
      && (mode == Start ==> got < |GET| && pageLen == 0 && keyLen == 0 && valueLen == 0 && numPairs == 0)
      && (mode == Page ==> keyLen == 0 && valueLen == 0 && numPairs == 0)
      && (mode == Key ==> valueLen == 0 && Holds(keys[..], KEY_SIZE * numPairs, p.key))
      && (InValue(mode) ==> HoldsString(keys[..], KEY_SIZE * numPairs, p.key)
                            && Holds(values[..], VALUE_SIZE * numPairs, p.value))
      && (mode == Percent || mode == Percent1 ==> valueLen < VALUE_SIZE - 1)
      && (mode == Percent1 ==> values[VALUE_SIZE * numPairs + valueLen] == p.half <= 240)
      && (if mode == Start || mode == Page then Holds(sPage[..], 0, p.page) else HoldsString(sPage[..], 0, p.page))
      && HoldsPairs(keys[..], values[..], p.pairs)
    }

    constructor (pageSize: nat)
      requires pageSize > 0
      ensures Valid() && p == INITIAL && sPage.Length == pageSize
      ensures fresh(keys) && fresh(values) && fresh(sPage)
    {
      keys := new u8[NUM_KEY_VALUES * KEY_SIZE](_ => 0);
      values := new u8[NUM_KEY_VALUES * VALUE_SIZE](_ => 0);
      sPage := new u8[pageSize](_ => 0);
      numPairs, mode, got, pageLen, keyLen, valueLen := 0, Start, 0, 0, 0, 0;
      p := INITIAL;
    }

    // ----- one byte -----

    /** Ends the page name. */
    method EndPage(next: Mode)
      requires Valid() && mode == Page && (next == Key || next == SeekBlank || next == FoundBlank)
      modifies this`mode, this`p, sPage
      ensures Valid() && p == old(p).(mode := next)
    {
      sPage[pageLen] := 0;
      mode, p := next, p.(mode := next);
      assert sPage[..pageLen] == old(sPage[..pageLen]);
    }

    method AddPageChar(c: u8)
      requires Valid() && mode == Page && pageLen < sPage.Length - 1
      modifies this`pageLen, this`p, sPage
      ensures Valid() && p == old(p).(page := old(p).page + [c])
    {
      sPage[pageLen] := c;
      pageLen, p := pageLen + 1, p.(page := p.page + [c]);
      assert sPage[..pageLen] == old(sPage[..pageLen]) + [c];
    }

    method AddKeyChar(c: u8)
      requires Valid() && mode == Key && keyLen < KEY_SIZE - 1
      modifies this`keyLen, this`p, keys
      ensures Valid() && p == old(p).(key := old(p).key + [c])
    {
      var at := KEY_SIZE * numPairs;
      keys[at + keyLen] := c;
      PairsKept(old(keys[..]), keys[..], values[..], values[..], p.pairs);
      keyLen, p := keyLen + 1, p.(key := p.key + [c]);
      assert keys[at..at + keyLen] == old(keys[at..at + keyLen]) + [c];
    }

    method EndKey()
      requires Valid() && mode == Key
      modifies this`mode, this`p, keys
      ensures Valid() && p == old(p).(mode := Value)
    {
      var at := KEY_SIZE * numPairs;
      keys[at + keyLen] := 0;
      PairsKept(old(keys[..]), keys[..], values[..], values[..], p.pairs);
      mode, p := Value, p.(mode := Value);
      assert keys[at..at + keyLen] == old(keys[at..at + keyLen]);
    }

    method AddValueChar(c: u8)
      requires Valid() && InValue(mode) && valueLen < VALUE_SIZE - 1
      modifies this`mode, this`valueLen, this`p, values
      ensures Valid() && p == old(p).(mode := Value, value := old(p).value + [c])
    {
      var at := VALUE_SIZE * numPairs;
      values[at + valueLen] := c;
      PairsKept(keys[..], keys[..], old(values[..]), values[..], p.pairs);
      valueLen, mode := valueLen + 1, Value;
      p := p.(mode := Value, value := p.value + [c]);
      assert values[at..at + valueLen] == old(values[at..at + valueLen]) + [c];
    }

    /** Writes the first digit of an escape, without moving on. */
    method SetHalf(half: u8)
      requires Valid() && mode == Percent && half <= 240
      modifies this`mode, this`p, values
      ensures Valid() && p == old(p).(mode := Percent1, half := half)
    {
      var at := VALUE_SIZE * numPairs;
      values[at + valueLen] := half;
      PairsKept(keys[..], keys[..], old(values[..]), values[..], p.pairs);
      mode, p := Percent1, p.(mode := Percent1, half := half);
      assert values[at..at + valueLen] == old(values[at..at + valueLen]);
    }

    /** Ends the value and completes the pair. */
    method EndPair()
      requires Valid() && InValue(mode)
      modifies this`mode, this`numPairs, this`p, values
      ensures Valid() && p == old(p).(mode := SeekBlank, pairs := old(p).pairs + [Pair(old(p).key, old(p).value)])
    {
      hide HoldsPairs;
      var at := VALUE_SIZE * numPairs;
      values[at + valueLen] := 0;
      PairsKept(keys[..], keys[..], old(values[..]), values[..], p.pairs);
      assert values[at..at + valueLen] == old(values[at..at + valueLen]);
      assert HoldsPair(keys[..], values[..], numPairs, Pair(p.key, p.value));
      OnePairMore(keys[..], values[..], p.pairs, Pair(p.key, p.value));
      p := p.(mode := SeekBlank, pairs := p.pairs + [Pair(p.key, p.value)]);
      numPairs, mode := numPairs + 1, SeekBlank;
    }

    /** Starts the next pair. */
    method BeginPair()
      requires Valid() && mode == SeekBlank && numPairs < NUM_KEY_VALUES
      modifies this`mode, this`keyLen, this`valueLen, this`p
      ensures Valid() && p == old(p).(mode := Key, key := [], value := [])
    {
      mode, keyLen, valueLen := Key, 0, 0;
      p := p.(mode := Key, key := [], value := []);
    }

    /** Ends the value of a pair that has no slot left; the pair is not counted. */
    method DropPair()
      requires Valid() && InValue(mode)
      modifies values
      ensures HoldsPairs(keys[..], values[..], p.pairs)
    {
      values[VALUE_SIZE * numPairs + valueLen] := 0;
      PairsKept(keys[..], keys[..], old(values[..]), values[..], p.pairs);
    }

    method SetMode(next: Mode)
      requires Valid() && InValue(mode) && (next == Value || (next == Percent && valueLen < VALUE_SIZE - 1))
      modifies this`mode, this`p
      ensures Valid() && p == old(p).(mode := next)
    {
      mode, p := next, p.(mode := next);
    }

    /** Turns to the rest of the header. */
    method Seek(next: Mode)
      requires Valid() && (mode == Key || mode == SeekBlank || mode == FoundBlank)
      requires next == SeekBlank || next == FoundBlank
      modifies this`mode, this`p
      ensures Valid() && p == old(p).(mode := next)
    {
      mode, p := next, p.(mode := next);
    }

    /** The buffers as the caller gets them: the page name and the counted pairs. */
    ghost predicate Delivers(page: seq<u8>, pairs: seq<Pair>)
      reads this, keys, values, sPage
    {
      numPairs == |pairs| && HoldsString(sPage[..], 0, page) && HoldsPairs(keys[..], values[..], pairs)
    }

    /** The object has taken the step to `o`. */
    ghost predicate Took(o: Outcome, s: Status)
      reads this, keys, values, sPage
    {
      match o
      case More(q) => s == Going && Valid() && p == q
      case Failed => s == Bad
      case Done(page, pairs) => s == Good && Delivers(page, pairs)
    }

    /** A byte inside a value. */
    method ValueByte(c: u8) returns (s: Status)
      requires Valid() && InValue(mode)
      modifies this, keys, values, sPage
      ensures Took(StepValue(old(p), c), s)
    {
      if c == SPACE {
        EndPair();
        return Going;
      }
      if c == AMPERSAND {
        if numPairs >= NUM_KEY_VALUES - 1 { DropPair(); return Good; }
        EndPair();
        BeginPair();
        return Going;
      }
      if !Printable(c) || valueLen >= VALUE_SIZE - 1 { return Bad; }
      ValueChar(c);
      return Going;
    }

    method ValueChar(c: u8)
      requires Valid() && InValue(mode) && Printable(c) && c != AMPERSAND && valueLen < VALUE_SIZE - 1
      modifies this, keys, values, sPage
      ensures StepValue(old(p), c).More? && Valid() && p == StepValue(old(p), c).p
    {
      hide HexDigit, Sanitized, HoldsPairs, HoldsString, Holds;
      if mode == Percent {
        if HexDigit(c) { SetHalf(16 * Hex2Int(c)); } else { SetMode(Value); }
      } else if mode == Percent1 {
        if HexDigit(c) {
          var half := values[VALUE_SIZE * numPairs + valueLen];
          AddValueChar(Sanitized(Wrap8(half + Hex2Int(c))));
        } else {
          SetMode(Value);
        }
      } else if c == PERCENT {
        SetMode(Percent);
      } else {
        AddValueChar(if c == PLUS then SPACE else c);
      }
    }

    /** A byte of the page name or of a key. */
    method NameByte(c: u8) returns (s: Status)
      requires Valid() && (mode == Page || mode == Key)
      modifies this, keys, values, sPage
      ensures Took(StepByte(old(p), c, sPage.Length), s)
    {
      if mode == Page {
        if c == QUESTION { EndPage(Key); }
        else if c == SPACE { EndPage(SeekBlank); }
        else if c == NEWLINE { EndPage(FoundBlank); }
        else if Printable(c) {
          if pageLen >= sPage.Length - 1 { return Bad; }
          AddPageChar(c);
        }
      } else {
        if c == SPACE { Seek(SeekBlank); }
        else if c == NEWLINE { Seek(FoundBlank); }
        else if c == AMPERSAND { return Bad; }
        else if c == EQUALS { EndKey(); }
        else if Printable(c) {
          if keyLen >= KEY_SIZE - 1 { return Bad; }
          AddKeyChar(c);
        }
      }
      return Going;
    }

    /** One byte in any mode. */
    method Byte(c: u8) returns (s: Status)
      requires Valid()
      modifies this, keys, values, sPage
      ensures Took(StepByte(old(p), c, sPage.Length), s)
    {
      if mode == Start {
        if c == GET[got] {
          got := got + 1;
          if got >= |GET| { mode := Page; }
          p := p.(got := got, mode := mode);
        }
        return Going;
      } else if mode == Page || mode == Key {
        s := NameByte(c);
      } else if mode == SeekBlank {
        if c == NEWLINE { Seek(FoundBlank); }
        return Going;
      } else if mode == FoundBlank {
        if c == NEWLINE { return Good; }
        if c != RETURN { Seek(SeekBlank); }
        return Going;
      } else {
        s := ValueByte(c);
      }
    }

    // ----- the read loop -----

    /** `rs` are the results of successive reads of the connection, at most 100
        bytes each, an empty one meaning nothing there yet; after the last one the
        peer is gone. The result depends on the bytes alone, not on how they came. */
    method ParseHeader(rs: seq<seq<u8>>) returns (ok: bool)
      requires Valid() && p == INITIAL
      requires forall i | 0 <= i < |rs| :: |rs[i]| <= 100
      modifies this, keys, values, sPage
      ensures var o := Run(INITIAL, Joined(rs), sPage.Length);
              && (ok <==> o.Done?) && (o.Done? ==> Delivers(o.page, o.pairs))
    {
      hide StepByte;
      var i := 0;
      ghost var all := Joined(rs);
      ghost var n := sPage.Length;
      while i < |rs|
        invariant 0 <= i <= |rs| && Valid()
        invariant Run(INITIAL, all, n) == Run(p, Joined(rs[i..]), n)
      {
        var recvbuf := rs[i];
        var k := 0;
        assert Joined(rs[i..]) == recvbuf + Joined(rs[i + 1..]);
        assert recvbuf[0..] == recvbuf;
        while k < |recvbuf|
          invariant 0 <= k <= |recvbuf| && Valid()
          invariant Run(INITIAL, all, n) == Run(p, recvbuf[k..] + Joined(rs[i + 1..]), n)
        {
          ghost var d := recvbuf[k..] + Joined(rs[i + 1..]);
          assert d[0] == recvbuf[k] && d[1..] == recvbuf[k + 1..] + Joined(rs[i + 1..]);
          var s := Byte(recvbuf[k]);
          if s == Good { return true; }
          if s == Bad { return false; }
          k := k + 1;
        }
        assert recvbuf[k..] + Joined(rs[i + 1..]) == Joined(rs[i + 1..]);
        i := i + 1;
      }
      return false;
    }
  }

  datatype Status = Going | Good | Bad

  function Joined(rs: seq<seq<u8>>): seq<u8>
  {
    if rs == [] then [] else rs[0] + Joined(rs[1..])
  }
}
