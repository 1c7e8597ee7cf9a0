/** System events of a remote station, cut into fragments for the master. */
module SysLog {
  import opened Words

  const MAX_STRING: nat := 40

  /** The report of one piece of an event; `more` is the CONTINUE flag. */
  datatype Fragment = Fragment(data: seq<u8>, more: bool)

  /** An event cut into pieces of 39 bytes, the last one shorter. */
  function Pieces(msg: seq<u8>): seq<seq<u8>>
    decreases |msg|
  {
    if msg == [] then []
    else if |msg| < MAX_STRING then [msg]
    else [msg[..MAX_STRING - 1]] + Pieces(msg[MAX_STRING - 1..])
  }

  function Joined(ps: seq<seq<u8>>): seq<u8>
  {
    if ps == [] then [] else ps[0] + Joined(ps[1..])
  }

  /** Nothing is lost, repeated or reordered, and no piece is empty or too long. */
  lemma {:induction false} PiecesJoin(msg: seq<u8>)
    ensures Joined(Pieces(msg)) == msg
    ensures forall i | 0 <= i < |Pieces(msg)| :: 1 <= |Pieces(msg)[i]| < MAX_STRING
    ensures forall i | 0 <= i < |Pieces(msg)| - 1 :: |Pieces(msg)[i]| == MAX_STRING - 1
    decreases |msg|
  {
    if |msg| >= MAX_STRING {
      var rest := msg[MAX_STRING - 1..];
      PiecesJoin(rest);
      assert Pieces(msg)[1..] == Pieces(rest);
      assert msg == msg[..MAX_STRING - 1] + rest;
    } else if msg != [] {
      assert Pieces(msg)[1..] == [];
    }
  }

  /** The pieces as they are reported: the flag on all but the first. */
  function Flagged(ps: seq<seq<u8>>): seq<Fragment>
  {
    seq(|ps|, i requires 0 <= i < |ps| => Fragment(ps[i], i > 0))
  }

  // ----- putting events together again -----

  /** The texts that a list of fragments stands for: CONTINUE joins a fragment to the one
      before it. */
  function Texts(fs: seq<Fragment>): seq<seq<u8>>
  {
    if fs == [] then []
    else
      var ts, f := Texts(fs[..|fs| - 1]), fs[|fs| - 1];
      if f.more && ts != [] then ts[..|ts| - 1] + [ts[|ts| - 1] + f.data] else ts + [f.data]
  }

  lemma {:induction false} JoinedMore(ps: seq<seq<u8>>, p: seq<u8>)
    ensures Joined(ps + [p]) == Joined(ps) + p
    decreases |ps|
  {
    if ps == [] {
      assert [p][1..] == [] && p + [] == p == [] + p;
    } else {
      assert (ps + [p])[1..] == ps[1..] + [p];
      JoinedMore(ps[1..], p);
    }
  }

  lemma {:induction false} TextsOfPieces(fs: seq<Fragment>, ps: seq<seq<u8>>)
    requires ps != []
    ensures Texts(fs + Flagged(ps)) == Texts(fs) + [Joined(ps)]
    decreases |ps|
  {
    var n := |ps| - 1;
    var all := fs + Flagged(ps);
    var f := Fragment(ps[n], n > 0);
    assert all[..|all| - 1] == fs + Flagged(ps[..n]) && all[|all| - 1] == f;
    assert ps == ps[..n] + [ps[n]];
    JoinedMore(ps[..n], ps[n]);
    if n == 0 {
      assert Flagged(ps[..n]) == [] && fs + [] == fs && Joined(ps[..n]) == [] && [] + ps[n] == ps[n];
    } else {
      TextsOfPieces(fs, ps[..n]);
      var ts := Texts(fs) + [Joined(ps[..n])];
      assert ts[..|ts| - 1] == Texts(fs);
    }
  }

  function Reported(msgs: seq<seq<u8>>): seq<Fragment>
  {
    if msgs == [] then [] else Reported(msgs[..|msgs| - 1]) + Flagged(Pieces(msgs[|msgs| - 1]))
  }

  /** The fragments of any events, one after the other, can be put together again by
      their flags: no two events are mixed up, and none is cut. */
  lemma {:induction false} EventsRecovered(msgs: seq<seq<u8>>)
    requires forall i | 0 <= i < |msgs| :: msgs[i] != []
    ensures Texts(Reported(msgs)) == msgs
    decreases |msgs|
  {
    if msgs != [] {
      var n := |msgs| - 1;
      EventsRecovered(msgs[..n]);
      PiecesJoin(msgs[n]);
      TextsOfPieces(Reported(msgs[..n]), Pieces(msgs[n]));
    }
  }

  /** Reported fragments `sent` and the unreported rest `held` make up `msg`. */
  ghost predicate Progress(msg: seq<u8>, sent: seq<Fragment>, held: seq<u8>, more: bool)
  {
    && |held| < MAX_STRING
    && (more <==> sent != []) && (msg != [] ==> held != [])
    && (held == [] ==> sent == [])
    && sent + (if held == [] then [] else [Fragment(held, more)]) == Flagged(Pieces(msg))
  }

  /** One more character lengthens the last piece, or starts a new one when it is full. */
  lemma {:induction false} PiecesAppend(msg: seq<u8>, c: u8)
    ensures var ps := Pieces(msg); var n := |ps| - 1;
            Pieces(msg + [c]) ==
              if msg == [] then [[c]]
              else if |ps[n]| < MAX_STRING - 1 then ps[..n] + [ps[n] + [c]]
              else ps + [[c]]
    decreases |msg|
  {
    PiecesJoin(msg);
    if |msg| >= MAX_STRING {
      var rest := msg[MAX_STRING - 1..];
      PiecesAppend(rest, c);
      assert (msg + [c])[MAX_STRING - 1..] == rest + [c];
      assert (msg + [c])[..MAX_STRING - 1] == msg[..MAX_STRING - 1];
      var qs := Pieces(rest);
      assert Pieces(msg) == [msg[..MAX_STRING - 1]] + qs;
    } else if |msg| == MAX_STRING - 1 {
      assert (msg + [c])[..MAX_STRING - 1] == msg;
      assert (msg + [c])[MAX_STRING - 1..] == [c];
      assert Pieces([c]) == [[c]];
    } else if msg != [] {
      assert Pieces(msg) == [msg] && Pieces(msg + [c]) == [msg + [c]];
    } else {
      assert msg + [c] == [c];
    }
  }

  lemma ProgressStep(msg: seq<u8>, c: u8, sent: seq<Fragment>, held: seq<u8>, more: bool)
    requires Progress(msg, sent, held, more)
    ensures if |held| < MAX_STRING - 1 then Progress(msg + [c], sent, held + [c], more)
            else Progress(msg + [c], sent + [Fragment(held, more)], [c], true)
  {
    PiecesAppend(msg, c);
    var ps := Pieces(msg);
    if held != [] {
      var n := |sent|;
      assert Flagged(ps)[n] == Fragment(held, more);
      assert |ps| == n + 1 && ps[n] == held;
      assert forall i | 0 <= i < n :: sent[i] == Flagged(ps)[i];
    } else {
      assert |Flagged(ps)| == 0;
    }
  }

  class EventLog {
    const buffer: array<u8>
    var counter: u8
    var more: bool
    ghost var sent: seq<Fragment>

    ghost predicate Valid()
      reads this, buffer
    {
      buffer.Length == MAX_STRING && counter < MAX_STRING
    }

    constructor ()
      ensures Valid() && fresh(buffer) && sent == []
    {
      buffer := new u8[MAX_STRING](_ => 0);
      counter, more, sent := 0, false, [];
    }

    method PutChar(c: u8)
      requires Valid()
      modifies this, buffer
      ensures Valid()
      ensures if old(counter) < MAX_STRING - 1
              then sent == old(sent) && more == old(more) && buffer[..counter] == old(buffer[..counter]) + [c]
              else sent == old(sent) + [Fragment(old(buffer[..counter]), old(more))] && more && buffer[..counter] == [c]
    {
      if counter < MAX_STRING - 1 {
        buffer[counter] := c;
        counter := counter + 1;
      } else {
        sent := sent + [Fragment(buffer[..counter], more)];
        buffer[0] := c;
        counter := 1;
        more := true;
      }
    }

    /** One event whose text is `msg`: the fragments reported are its pieces, in
        order, with the flag on all but the first. */
    method Event(msg: seq<u8>)
      requires Valid()
      modifies this, buffer
      ensures Valid()
      ensures sent == old(sent) + Flagged(Pieces(msg))
    {
      ghost var before := sent;
      counter, more := 0, false;
      var i := 0;
      while i < |msg|
        invariant 0 <= i <= |msg| && Valid()
        invariant before <= sent && Progress(msg[..i], sent[|before|..], buffer[..counter], more)
      {
        ProgressStep(msg[..i], msg[i], sent[|before|..], buffer[..counter], more);
        ghost var mid := sent;
        PutChar(msg[i]);
        assert msg[..i] + [msg[i]] == msg[..i + 1];
        assert sent == mid || sent[|before|..] == mid[|before|..] + [sent[|mid|]];
        i := i + 1;
      }
      assert msg[..i] == msg;
      if counter != 0 {
        sent := sent + [Fragment(buffer[..counter], more)];
      }
    }
  }
}
