/** The request-header parser of the web server, as a machine fed one byte at a time. */
module HttpHeader {
  import opened Words

  const NUM_KEY_VALUES: nat := 60
  const KEY_SIZE: nat := 10
  const VALUE_SIZE: nat := 20
  const SPACE: u8 := 32
  const NEWLINE: u8 := 10
  const RETURN: u8 := 13
  const QUOTE: u8 := 34
  const PERCENT: u8 := 37
  const AMPERSAND: u8 := 38
  const PLUS: u8 := 43
  const EQUALS: u8 := 61
  const QUESTION: u8 := 63
  const BACKSLASH: u8 := 92
  const DELETE: u8 := 127

  /** "GET /" */
  const GET: seq<u8> := [71, 69, 84, 32, 47]

  datatype Mode = Start | Page | Key | Value | Percent | Percent1 | SeekBlank | FoundBlank

  datatype Pair = Pair(key: seq<u8>, value: seq<u8>)

  datatype Parse = Parse(
    mode: Mode,
    got: nat,            // characters of GET matched
    page: seq<u8>,
    pairs: seq<Pair>,    // complete pairs
    key: seq<u8>,        // the pair being read
    value: seq<u8>,
    half: u8)            // first digit of an escape, times 16

  datatype Outcome = More(p: Parse) | Failed | Done(page: seq<u8>, pairs: seq<Pair>)

  const INITIAL := Parse(Start, 0, [], [], [], [], 0)

  predicate Printable(c: u8) { 32 < c < 127 }

  predicate HexDigit(c: u8) { 48 <= c <= 57 || 65 <= c <= 70 || 97 <= c <= 102 }

  function Hex2Int(c: u8): (v: u8)
    ensures v < 16
    ensures HexDigit(c) <==> v > 0 || c == 48
  {
    if c < 48 then 0
    else if c <= 57 then c - 48
    else if c < 65 then 0
    else if c <= 70 then c - 55
    else if c < 97 then 0
    else if c <= 102 then c - 87
    else 0
  }

  /** Escaped control characters, quotes and backslashes become spaces. */
  function Sanitized(b: u8): u8
  {
    if b < 32 || b == DELETE || b == QUOTE || b == BACKSLASH then SPACE else b
  }

  function StepValue(p: Parse, c: u8): Outcome
  {
    if c == SPACE then
      More(p.(mode := SeekBlank, pairs := p.pairs + [Pair(p.key, p.value)]))
    else if c == AMPERSAND then
      if |p.pairs| >= NUM_KEY_VALUES - 1 then Done(p.page, p.pairs)
      else More(p.(mode := Key, pairs := p.pairs + [Pair(p.key, p.value)], key := [], value := []))
    else if !Printable(c) || |p.value| >= VALUE_SIZE - 1 then Failed
    else if p.mode == Percent then
      if HexDigit(c) then More(p.(mode := Percent1, half := 16 * Hex2Int(c))) else More(p.(mode := Value))
    else if p.mode == Percent1 then
      More(p.(mode := Value,
              value := if HexDigit(c) then p.value + [Sanitized(Wrap8(p.half + Hex2Int(c)))] else p.value))
    else if c == PERCENT then More(p.(mode := Percent))
    else More(p.(value := p.value + [if c == PLUS then SPACE else c]))
  }

  function StepByte(p: Parse, c: u8, pageSize: nat): Outcome
  {
    match p.mode
    case Start =>
      if p.got < |GET| && c == GET[p.got] then
        More(p.(got := p.got + 1, mode := if p.got + 1 >= |GET| then Page else Start))
      else More(p)
    case Page =>
      if c == QUESTION then More(p.(mode := Key))
      else if c == SPACE then More(p.(mode := SeekBlank))
      else if c == NEWLINE then More(p.(mode := FoundBlank))
      else if !Printable(c) then More(p)
      else if |p.page| >= pageSize - 1 then Failed
      else More(p.(page := p.page + [c]))
    case Key =>
      if c == SPACE then More(p.(mode := SeekBlank))
      else if c == NEWLINE then More(p.(mode := FoundBlank))
      else if c == AMPERSAND then Failed
      else if c == EQUALS then More(p.(mode := Value))
      else if !Printable(c) then More(p)
      else if |p.key| >= KEY_SIZE - 1 then Failed
      else More(p.(key := p.key + [c]))
    case SeekBlank => if c == NEWLINE then More(p.(mode := FoundBlank)) else More(p)
    case FoundBlank =>
      if c == NEWLINE then Done(p.page, p.pairs)
      else if c != RETURN then More(p.(mode := SeekBlank))
      else More(p)
    case _ => StepValue(p, c)
  }

  /** The outcome after a whole stream of bytes; the rest is not read once it is settled. */
  function Run(p: Parse, d: seq<u8>, pageSize: nat): Outcome
    decreases |d|
  {
    if d == [] then More(p)
    else
      var o := StepByte(p, d[0], pageSize);
      if o.More? then Run(o.p, d[1..], pageSize) else o
  }

  lemma {:induction false} RunConcat(p: Parse, a: seq<u8>, b: seq<u8>, n: nat)
    ensures Run(p, a + b, n) == (var o := Run(p, a, n); if o.More? then Run(o.p, b, n) else o)
    decreases |a|
  {
    hide StepByte;
    if a == [] {
      assert a + b == b;
    } else {
      assert (a + b)[1..] == a[1..] + b;
      var o := StepByte(p, a[0], n);
      if o.More? { RunConcat(o.p, a[1..], b, n); }
    }
  }

  // ----- encoded requests -----

  /** One unit of a form-encoded value: a character that stands for itself, a plus
      sign for a space, or an escape with two digits in either case. */
  datatype Unit = Plain(c: u8) | Blank | Escape(hi: u8, lo: u8)

  predicate GoodUnit(u: Unit)
  {
    match u
    case Plain(c) => Printable(c) && c != PERCENT && c != PLUS && c != AMPERSAND
    case Blank => true
    case Escape(hi, lo) => HexDigit(hi) && HexDigit(lo)
  }

  function UnitText(u: Unit): seq<u8>
  {
    match u
    case Plain(c) => [c]
    case Blank => [PLUS]
    case Escape(hi, lo) => [PERCENT, hi, lo]
  }

  function UnitMeaning(u: Unit): u8
  {
    match u
    case Plain(c) => c
    case Blank => SPACE
    case Escape(hi, lo) => Sanitized(Wrap8(16 * Hex2Int(hi) + Hex2Int(lo)))
  }

  function Text(us: seq<Unit>): seq<u8>
  {
    if us == [] then [] else UnitText(us[0]) + Text(us[1..])
  }

  function Meaning(us: seq<Unit>): seq<u8>
  {
    if us == [] then [] else [UnitMeaning(us[0])] + Meaning(us[1..])
  }

  datatype Field = Field(key: seq<u8>, value: seq<Unit>)

  predicate GoodKey(k: seq<u8>)
  {
    |k| < KEY_SIZE && forall i | 0 <= i < |k| :: Printable(k[i]) && k[i] != EQUALS && k[i] != AMPERSAND
  }

  predicate GoodField(f: Field)
  {
    GoodKey(f.key) && |f.value| < VALUE_SIZE && forall i | 0 <= i < |f.value| :: GoodUnit(f.value[i])
  }

  predicate GoodPage(page: seq<u8>, pageSize: nat)
  {
    |page| < pageSize && forall i | 0 <= i < |page| :: Printable(page[i]) && page[i] != QUESTION
  }

  function FieldText(f: Field): seq<u8> { f.key + [EQUALS] + Text(f.value) }

  function FieldsText(fs: seq<Field>): seq<u8>
    requires fs != []
  {
    if |fs| == 1 then FieldText(fs[0]) else FieldText(fs[0]) + [AMPERSAND] + FieldsText(fs[1..])
  }

  function FieldMeaning(f: Field): Pair { Pair(f.key, Meaning(f.value)) }

  function FieldsMeaning(fs: seq<Field>): seq<Pair>
  {
    seq(|fs|, i requires 0 <= i < |fs| => FieldMeaning(fs[i]))
  }

  /** A GET request for `page` with `fs`, any further header bytes, and a blank line. */
  function Request(page: seq<u8>, fs: seq<Field>, header: seq<u8>): seq<u8>
  {
    GET + page + (if fs == [] then [] else [QUESTION] + FieldsText(fs)) + [SPACE] + header + [NEWLINE, RETURN, NEWLINE]
  }

  // ----- reading them back -----

  lemma {:induction false} RunPage(p: Parse, page: seq<u8>, n: nat)
    requires p.mode == Page && |p.page| + |page| < n
    requires forall i | 0 <= i < |page| :: Printable(page[i]) && page[i] != QUESTION
    ensures Run(p, page, n) == More(p.(page := p.page + page))
    decreases |page|
  {
    if page != [] {
      RunPage(p.(page := p.page + [page[0]]), page[1..], n);
      assert p.page + [page[0]] + page[1..] == p.page + page;
    } else {
      assert p.page + page == p.page;
    }
  }

  lemma {:induction false} RunKey(p: Parse, k: seq<u8>, n: nat)
    requires p.mode == Key && |p.key| + |k| < KEY_SIZE
    requires forall i | 0 <= i < |k| :: Printable(k[i]) && k[i] != EQUALS && k[i] != AMPERSAND
    ensures Run(p, k, n) == More(p.(key := p.key + k))
    decreases |k|
  {
    if k != [] {
      RunKey(p.(key := p.key + [k[0]]), k[1..], n);
      assert p.key + [k[0]] + k[1..] == p.key + k;
    } else {
      assert p.key + k == p.key;
    }
  }

  /** Reading one unit appends its meaning. */
  lemma RunUnit(p: Parse, u: Unit, n: nat)
    requires p.mode == Value && |p.value| < VALUE_SIZE - 1 && GoodUnit(u)
    ensures var o := Run(p, UnitText(u), n);
            o.More? && o.p == p.(value := p.value + [UnitMeaning(u)], half := o.p.half)
  {
    match u
    case Plain(c) => assert [c][1..] == [];
    case Blank => assert [PLUS][1..] == [];
    case Escape(hi, lo) =>
      var t := [PERCENT, hi, lo];
      assert t[1..] == [hi, lo] && t[1..][1..] == [lo] && t[1..][1..][1..] == [];
      var p1 := p.(mode := Percent);
      var p2 := p1.(mode := Percent1, half := 16 * Hex2Int(hi));
      assert Run(p, t, n) == Run(p1, [hi, lo], n) == Run(p2, [lo], n);
      RunOne(p2, lo, n);
  }

  lemma {:induction false} RunValue(p: Parse, us: seq<Unit>, n: nat)
    requires p.mode == Value && |p.value| + |us| < VALUE_SIZE
    requires forall i | 0 <= i < |us| :: GoodUnit(us[i])
    ensures var o := Run(p, Text(us), n);
            o.More? && o.p == p.(value := p.value + Meaning(us), half := o.p.half)
    decreases |us|
  {
    hide Run, StepByte, UnitMeaning, UnitText, GoodUnit;
    if us != [] {
      RunUnit(p, us[0], n);
      var p1 := Run(p, UnitText(us[0]), n).p;
      RunConcat(p, UnitText(us[0]), Text(us[1..]), n);
      RunValue(p1, us[1..], n);
      assert p.value + [UnitMeaning(us[0])] + Meaning(us[1..]) == p.value + Meaning(us);
    } else {
      RunNothing(p, n);
      assert p.value + Meaning(us) == p.value;
    }
  }

  lemma RunNothing(p: Parse, n: nat)
    ensures Run(p, [], n) == More(p)
  {}

  /** A pair is read into `key` and `value`, ready for its separator. */
  lemma RunField(p: Parse, f: Field, n: nat)
    requires p.mode == Key && p.key == [] && p.value == [] && GoodField(f)
    ensures var o := Run(p, FieldText(f), n);
            o.More? && o.p == p.(mode := Value, key := f.key, value := Meaning(f.value), half := o.p.half)
  {
    RunKey(p, f.key, n);
    assert [] + f.key == f.key && [] + Meaning(f.value) == Meaning(f.value);
    var p1 := p.(key := f.key);
    var p2 := p1.(mode := Value);
    RunOne(p1, EQUALS, n);
    RunConcat(p, f.key, [EQUALS], n);
    RunConcat(p, f.key + [EQUALS], Text(f.value), n);
    RunValue(p2, f.value, n);
  }

  lemma RunOne(p: Parse, c: u8, n: nat)
    ensures Run(p, [c], n) == StepByte(p, c, n)
  {
    hide StepByte;
    assert [c][1..] == [];
    var o := StepByte(p, c, n);
    if o.More? { assert Run(o.p, [], n) == o; }
  }

  /** All pairs up to the blank that ends them; one pair too many ends the parse with
      the first 59. */
  lemma {:induction false} RunFields(p: Parse, fs: seq<Field>, n: nat)
    requires p.mode == Key && p.key == [] && p.value == [] && fs != [] && |p.pairs| < NUM_KEY_VALUES
    requires forall i | 0 <= i < |fs| :: GoodField(fs[i])
    ensures var o := Run(p, FieldsText(fs) + [SPACE], n);
            if |p.pairs| + |fs| <= NUM_KEY_VALUES then
              o.More? && o.p.mode == SeekBlank && o.p.page == p.page && o.p.pairs == p.pairs + FieldsMeaning(fs)
            else
              o == Done(p.page, (p.pairs + FieldsMeaning(fs))[..NUM_KEY_VALUES - 1])
    decreases |fs|
  {
    hide Run, StepByte, Meaning, GoodUnit, FieldText;
    var f := fs[0];
    RunField(p, f, n);
    var p1 := Run(p, FieldText(f), n).p;
    var all := p.pairs + FieldsMeaning(fs);
    if |fs| == 1 {
      EndPair(p1, n);
      RunOne(p1, SPACE, n);
      RunConcat(p, FieldText(f), [SPACE], n);
      assert all == p.pairs + [FieldMeaning(f)];
    } else {
      var rest := FieldsText(fs[1..]) + [SPACE];
      assert FieldsText(fs) + [SPACE] == FieldText(f) + ([AMPERSAND] + rest);
      RunConcat(p, FieldText(f), [AMPERSAND] + rest, n);
      RunConcat(p1, [AMPERSAND], rest, n);
      RunOne(p1, AMPERSAND, n);
      EndPair(p1, n);
      if |p.pairs| < NUM_KEY_VALUES - 1 {
        var p2 := p1.(mode := Key, pairs := p1.pairs + [FieldMeaning(f)], key := [], value := []);
        RunFields(p2, fs[1..], n);
        assert p2.pairs + FieldsMeaning(fs[1..]) == all;
      } else {
        assert all[..NUM_KEY_VALUES - 1] == p.pairs;
      }
    }
  }

  lemma EndPair(p: Parse, n: nat)
    requires p.mode == Value
    ensures StepByte(p, SPACE, n) == More(p.(mode := SeekBlank, pairs := p.pairs + [Pair(p.key, p.value)]))
    ensures StepByte(p, AMPERSAND, n) ==
            if |p.pairs| >= NUM_KEY_VALUES - 1 then Done(p.page, p.pairs)
            else More(p.(mode := Key, pairs := p.pairs + [Pair(p.key, p.value)], key := [], value := []))
  {}

  /** Whatever the remaining header is, the blank line after it completes the parse. */
  lemma {:induction false} RunHeader(p: Parse, header: seq<u8>, n: nat)
    requires p.mode == SeekBlank || p.mode == FoundBlank
    ensures Run(p, header + [NEWLINE, RETURN, NEWLINE], n) == Done(p.page, p.pairs)
    decreases |header|
  {
    var d := header + [NEWLINE, RETURN, NEWLINE];
    if header == [] {
      assert d == [NEWLINE, RETURN, NEWLINE];
      assert d[1..] == [RETURN, NEWLINE] && d[1..][1..] == [NEWLINE];
      if p.mode == SeekBlank {
        var q := p.(mode := FoundBlank);
        assert Run(p, d, n) == Run(q, [RETURN, NEWLINE], n) == Run(q, [NEWLINE], n);
      }
    } else {
      assert d[1..] == header[1..] + [NEWLINE, RETURN, NEWLINE];
      var o := StepByte(p, header[0], n);
      if o.More? { RunHeader(o.p, header[1..], n); }
    }
  }

  /** Header lines, each after its line feed. */
  function Lines(ls: seq<seq<u8>>): seq<u8>
  {
    if ls == [] then [] else [NEWLINE] + ls[0] + Lines(ls[1..])
  }

  /** A line with something else in it than carriage returns. */
  predicate FullLine(l: seq<u8>)
  {
    NEWLINE !in l && exists i :: 0 <= i < |l| && l[i] != RETURN
  }

  lemma {:induction false} RunLine(p: Parse, l: seq<u8>, n: nat)
    requires p.mode == SeekBlank || p.mode == FoundBlank
    requires NEWLINE !in l && (p.mode == FoundBlank ==> FullLine(l))
    ensures Run(p, l, n) == More(p.(mode := SeekBlank))
    decreases |l|
  {
    if l != [] {
      var o := StepByte(p, l[0], n);
      if p.mode == FoundBlank && l[0] == RETURN {
        var i :| 0 <= i < |l| && l[i] != RETURN;
        assert l[1..][i - 1] != RETURN;
      }
      RunLine(o.p, l[1..], n);
    }
  }

  /** As long as no line is blank, the request is not complete. */
  lemma {:induction false} RunLines(p: Parse, ls: seq<seq<u8>>, n: nat)
    requires p.mode == SeekBlank && forall i | 0 <= i < |ls| :: FullLine(ls[i])
    ensures Run(p, Lines(ls), n) == More(p)
    decreases |ls|
  {
    hide Run, FullLine;
    if ls == [] {
      RunNothing(p, n);
    } else {
      var q := p.(mode := FoundBlank);
      RunConcat(p, [NEWLINE] + ls[0], Lines(ls[1..]), n);
      RunConcat(p, [NEWLINE], ls[0], n);
      RunOne(p, NEWLINE, n);
      assert NEWLINE !in ls[0] by { NoFeed(ls[0]); }
      RunLine(q, ls[0], n);
      RunLines(p, ls[1..], n);
    }
  }

  lemma NoFeed(l: seq<u8>)
    requires FullLine(l)
    ensures NEWLINE !in l
  {}

  lemma RunGet(n: nat)
    ensures Run(INITIAL, GET, n) == More(INITIAL.(mode := Page, got := 5))
  {
    var p1 := INITIAL.(got := 1);
    var p2 := INITIAL.(got := 2);
    var p3 := INITIAL.(got := 3);
    var p4 := INITIAL.(got := 4);
    assert GET[1..] == [69, 84, 32, 47] && GET[1..][1..] == [84, 32, 47];
    assert GET[1..][1..][1..] == [32, 47] && GET[1..][1..][1..][1..] == [47];
    RunOne(p4, 47, n);
    assert Run(INITIAL, GET, n) == Run(p1, [69, 84, 32, 47], n) == Run(p2, [84, 32, 47], n);
    assert Run(p2, [84, 32, 47], n) == Run(p3, [32, 47], n) == Run(p4, [47], n);
  }

  /** Every form-encoded GET request within the size limits comes back as what it
      means: all pairs if there are at most 60, else the first 59. */
  lemma RequestRoundTrip(page: seq<u8>, fs: seq<Field>, header: seq<u8>, n: nat)
    requires GoodPage(page, n) && forall i | 0 <= i < |fs| :: GoodField(fs[i])
    ensures Run(INITIAL, Request(page, fs, header), n) ==
            Done(page, if |fs| <= NUM_KEY_VALUES then FieldsMeaning(fs) else FieldsMeaning(fs)[..NUM_KEY_VALUES - 1])
  {
    hide StepByte, Run, FieldsText;
    var end := header + [NEWLINE, RETURN, NEWLINE];
    var p0 := INITIAL.(mode := Page, got := 5);
    var p1 := p0.(page := page);
    RunGet(n);
    RunPage(p0, page, n);
    assert [] + page == page;
    RunConcat(INITIAL, GET, page, n);
    if fs == [] {
      assert Request(page, fs, header) == GET + page + ([SPACE] + end);
      RunConcat(INITIAL, GET + page, [SPACE] + end, n);
      RunConcat(p1, [SPACE], end, n);
      RunOne(p1, SPACE, n);
      EndPage(p1, n);
      RunHeader(p1.(mode := SeekBlank), header, n);
      assert FieldsMeaning(fs) == [];
    } else {
      var q := FieldsText(fs) + [SPACE];
      assert Request(page, fs, header) == GET + page + ([QUESTION] + (q + end));
      RunConcat(INITIAL, GET + page, [QUESTION] + (q + end), n);
      RunConcat(p1, [QUESTION], q + end, n);
      RunOne(p1, QUESTION, n);
      EndPage(p1, n);
      var p2 := p1.(mode := Key);
      RunFields(p2, fs, n);
      RunConcat(p2, q, end, n);
      assert [] + FieldsMeaning(fs) == FieldsMeaning(fs);
      if |fs| <= NUM_KEY_VALUES { RunHeader(Run(p2, q, n).p, header, n); }
    }
  }

  lemma EndPage(p: Parse, n: nat)
    requires p.mode == Page
    ensures StepByte(p, SPACE, n) == More(p.(mode := SeekBlank))
    ensures StepByte(p, QUESTION, n) == More(p.(mode := Key))
  {}

  // ----- requests that are too long -----

  lemma {:induction false} RunLongPage(p: Parse, page: seq<u8>, n: nat)
    requires p.mode == Page && |p.page| < n <= |p.page| + |page|
    requires forall i | 0 <= i < |page| :: Printable(page[i]) && page[i] != QUESTION
    ensures Run(p, page, n) == Failed
    decreases |page|
  {
    if |p.page| < n - 1 { RunLongPage(p.(page := p.page + [page[0]]), page[1..], n); }
  }

  lemma {:induction false} RunLongKey(p: Parse, k: seq<u8>, n: nat)
    requires p.mode == Key && |p.key| < 10 <= |p.key| + |k|
    requires forall i | 0 <= i < |k| :: Printable(k[i]) && k[i] != EQUALS && k[i] != AMPERSAND
    ensures Run(p, k, n) == Failed
    decreases |k|
  {
    if |p.key| < 9 { RunLongKey(p.(key := p.key + [k[0]]), k[1..], n); }
  }

  lemma {:induction false} RunLongValue(p: Parse, us: seq<Unit>, n: nat)
    requires p.mode == Value && |p.value| < 20 <= |p.value| + |us|
    requires forall i | 0 <= i < |us| :: GoodUnit(us[i])
    ensures Run(p, Text(us), n) == Failed
    decreases |us|
  {
    var u := us[0];
    if |p.value| == 19 {
      assert Printable(Text(us)[0]) && Text(us)[0] != AMPERSAND && Text(us)[0] != SPACE;
    } else {
      hide Run, StepByte, UnitMeaning, UnitText, GoodUnit;
      RunUnit(p, u, n);
      RunConcat(p, UnitText(u), Text(us[1..]), n);
      RunLongValue(Run(p, UnitText(u), n).p, us[1..], n);
    }
  }

  /** A pair with a key of ten characters or more, or a value of twenty or more. */
  predicate LongField(f: Field)
  {
    && (forall i | 0 <= i < |f.key| :: Printable(f.key[i]) && f.key[i] != EQUALS && f.key[i] != AMPERSAND)
    && (forall i | 0 <= i < |f.value| :: GoodUnit(f.value[i]))
    && (|f.key| >= 10 || |f.value| >= 20)
  }

  lemma RunLongField(p: Parse, f: Field, n: nat)
    requires p.mode == Key && p.key == [] && p.value == [] && LongField(f)
    ensures Run(p, FieldText(f), n) == Failed
  {
    RunConcat(p, f.key + [EQUALS], Text(f.value), n);
    RunConcat(p, f.key, [EQUALS], n);
    if |f.key| >= 10 {
      RunLongKey(p, f.key, n);
    } else {
      RunKey(p, f.key, n);
      assert [] + f.key == f.key;
      RunOne(p.(key := f.key), EQUALS, n);
      RunLongValue(p.(key := f.key, mode := Value), f.value, n);
    }
  }

  lemma {:induction false} RunLongFields(p: Parse, fs: seq<Field>, k: nat, n: nat)
    requires p.mode == Key && p.key == [] && p.value == [] && k < |fs| && |p.pairs| + k < NUM_KEY_VALUES
    requires (forall i | 0 <= i < k :: GoodField(fs[i])) && LongField(fs[k])
    ensures Run(p, FieldsText(fs), n) == Failed
    decreases |fs|
  {
    hide Run, StepByte, Meaning, GoodUnit, FieldText;
    var f := fs[0];
    if k == 0 {
      RunLongField(p, f, n);
      if |fs| > 1 {
        assert FieldsText(fs) == FieldText(f) + ([AMPERSAND] + FieldsText(fs[1..]));
        RunConcat(p, FieldText(f), [AMPERSAND] + FieldsText(fs[1..]), n);
      }
    } else {
      RunField(p, f, n);
      var p1 := Run(p, FieldText(f), n).p;
      assert FieldsText(fs) == FieldText(f) + ([AMPERSAND] + FieldsText(fs[1..]));
      RunConcat(p, FieldText(f), [AMPERSAND] + FieldsText(fs[1..]), n);
      RunConcat(p1, [AMPERSAND], FieldsText(fs[1..]), n);
      RunOne(p1, AMPERSAND, n);
      EndPair(p1, n);
      RunLongFields(p1.(mode := Key, pairs := p1.pairs + [FieldMeaning(f)], key := [], value := []), fs[1..], k - 1, n);
    }
  }

  /** A request fails if its page name does not fit, or one of its first 60 pairs has a
      key or a value that does not fit; the pairs after it do not matter. */
  lemma LongRequestFails(page: seq<u8>, fs: seq<Field>, header: seq<u8>, n: nat, k: nat)
    requires n > 0 && forall i | 0 <= i < |page| :: Printable(page[i]) && page[i] != QUESTION
    requires |page| >= n || (k < |fs| && k < 60 && LongField(fs[k]) && forall i | 0 <= i < k :: GoodField(fs[i]))
    ensures Run(INITIAL, Request(page, fs, header), n) == Failed
  {
    hide StepByte, Run, FieldsText, LongField, GoodField;
    var p0 := INITIAL.(mode := Page, got := 5);
    var end := [SPACE] + header + [NEWLINE, RETURN, NEWLINE];
    var rest := (if fs == [] then [] else [QUESTION] + FieldsText(fs)) + end;
    assert Request(page, fs, header) == GET + (page + rest);
    RunGet(n);
    RunConcat(INITIAL, GET, page + rest, n);
    RunConcat(p0, page, rest, n);
    if |page| >= n {
      RunLongPage(p0, page, n);
    } else {
      RunPage(p0, page, n);
      assert [] + page == page;
      var p1 := p0.(page := page);
      RunConcat(p1, [QUESTION] + FieldsText(fs), end, n);
      RunConcat(p1, [QUESTION], FieldsText(fs), n);
      RunOne(p1, QUESTION, n);
      EndPage(p1, n);
      RunLongFields(p1.(mode := Key), fs, k, n);
    }
  }

  // ----- requests that are malformed -----

  /** An escape whose first or second character is no digit is swallowed with it. */
  lemma BadEscapeDropped(p: Parse, hi: u8, c: u8, n: nat)
    requires p.mode == Value && |p.value| < 19 && HexDigit(hi)
    requires 32 < c < 127 && c != AMPERSAND && !HexDigit(c)
    ensures Run(p, [PERCENT, c], n) == More(p)
    ensures var o := Run(p, [PERCENT, hi, c], n); o.More? && o.p == p.(half := o.p.half)
  {
    hide StepByte, Run;
    var p1 := p.(mode := Percent);
    var p2 := p1.(mode := Percent1, half := 16 * Hex2Int(hi));
    RunConcat(p, [PERCENT], [c], n);
    RunConcat(p, [PERCENT], [hi, c], n);
    RunConcat(p1, [hi], [c], n);
    RunOne(p, PERCENT, n);
    RunOne(p1, hi, n);
    RunOne(p1, c, n);
    RunOne(p2, c, n);
    assert [PERCENT] + [c] == [PERCENT, c] && [PERCENT] + [hi, c] == [PERCENT, hi, c] && [hi] + [c] == [hi, c];
    EscapeSteps(p, hi, c, n);
  }

  lemma EscapeSteps(p: Parse, hi: u8, c: u8, n: nat)
    requires p.mode == Value && |p.value| < 19 && HexDigit(hi)
    requires 32 < c < 127 && c != AMPERSAND && !HexDigit(c)
    ensures var p1 := p.(mode := Percent);
            var p2 := p1.(mode := Percent1, half := 16 * Hex2Int(hi));
            && StepByte(p, PERCENT, n) == More(p1) && StepByte(p1, hi, n) == More(p2)
            && StepByte(p1, c, n) == More(p) && StepByte(p2, c, n) == More(p2.(mode := Value))
  {}

  /** A key without a value is dropped at the end of the pairs, and fails the request
      before another pair. */
  lemma BareKey(p: Parse, k: seq<u8>, n: nat)
    requires p.mode == Key && p.key == [] && GoodKey(k)
    ensures Run(p, k + [SPACE], n) == More(p.(mode := SeekBlank, key := k))
    ensures Run(p, k + [AMPERSAND], n) == Failed
  {
    hide Run;
    RunKey(p, k, n);
    assert [] + k == k;
    RunConcat(p, k, [SPACE], n);
    RunConcat(p, k, [AMPERSAND], n);
    RunOne(p.(key := k), SPACE, n);
    RunOne(p.(key := k), AMPERSAND, n);
  }

  /** A raw control or non-ASCII byte fails a value, and is ignored in a page or a key,
      unless it ends the line. */
  lemma UnprintableByte(p: Parse, c: u8, n: nat)
    requires c < 32 || c > 126
    ensures p.mode == Value ==> Run(p, [c], n) == Failed
    ensures p.mode == Page || p.mode == Key ==> Run(p, [c], n) == More(if c == 10 then p.(mode := FoundBlank) else p)
  {
    RunOne(p, c, n);
  }

  /** A request line of "GET /" and a page alone, followed by an empty line. */
  lemma BareRequest(page: seq<u8>, n: nat)
    requires GoodPage(page, n)
    ensures Run(INITIAL, GET + page + [NEWLINE, NEWLINE], n) == Done(page, [])
  {
    hide Run, StepByte;
    var p := INITIAL.(mode := Page, got := 5);
    var q := p.(page := page);
    RunGet(n);
    RunPage(p, page, n);
    assert [] + page == page && [NEWLINE] + [NEWLINE] == [NEWLINE, NEWLINE];
    RunConcat(INITIAL, GET, page, n);
    RunConcat(INITIAL, GET + page, [NEWLINE, NEWLINE], n);
    RunConcat(q, [NEWLINE], [NEWLINE], n);
    UnprintableByte(q, NEWLINE, n);
    RunOne(q.(mode := FoundBlank), NEWLINE, n);
    LineEnds(q.(mode := FoundBlank), n);
  }

  lemma LineEnds(p: Parse, n: nat)
    requires p.mode == FoundBlank
    ensures StepByte(p, NEWLINE, n) == Done(p.page, p.pairs)
  {}

  /** Bytes other than the next one of "GET /" are skipped, so that it is found in any
      stream that contains its bytes in order. */
  lemma {:induction false} RunJunk(p: Parse, j: seq<u8>, n: nat)
    requires p.mode == Start && p.got < 5 && GET[p.got] !in j
    ensures Run(p, j, n) == More(p)
    decreases |j|
  {
    if j != [] { RunJunk(p, j[1..], n); }
  }

  lemma {:induction false} GetInJunk(p: Parse, js: seq<seq<u8>>, n: nat)
    requires p.mode == Start && p.got + |js| == 5 && js != []
    requires forall i | 0 <= i < |js| :: GET[p.got + i] !in js[i]
    ensures Run(p, Mixed(js, p.got), n) == More(p.(mode := Page, got := 5))
    decreases |js|
  {
    hide StepByte;
    var c := GET[p.got];
    var q := p.(got := p.got + 1, mode := if p.got == 4 then Page else Start);
    RunJunk(p, js[0], n);
    RunConcat(p, js[0] + [c], Mixed(js[1..], p.got + 1), n);
    RunConcat(p, js[0], [c], n);
    RunOne(p, c, n);
    NextOfGet(p, n);
    if |js| > 1 { GetInJunk(q, js[1..], n); }
  }

  lemma NextOfGet(p: Parse, n: nat)
    requires p.mode == Start && p.got < 5
    ensures StepByte(p, GET[p.got], n) == More(p.(got := p.got + 1, mode := if p.got == 4 then Page else Start))
  {}

  /** The bytes of "GET /" from number `from` on, each after its junk. */
  function Mixed(js: seq<seq<u8>>, from: nat): seq<u8>
    requires from + |js| <= 5
    decreases |js|
  {
    if js == [] then [] else js[0] + [GET[from]] + Mixed(js[1..], from + 1)
  }

  // ----- any value can be encoded -----

  function HexChar(v: nat): u8
    requires v < 16
  {
    if v < 10 then 48 + v else 55 + v
  }

  /** The usual encoder: plus for a space, letters and digits as they are, the rest
      escaped. */
  function EncodeByte(b: u8): Unit
  {
    if b == SPACE then Blank
    else if 48 <= b <= 57 || 65 <= b <= 90 || 97 <= b <= 122 then Plain(b)
    else Escape(HexChar(b / 16), HexChar(b % 16))
  }

  function Encode(v: seq<u8>): seq<Unit>
  {
    seq(|v|, i requires 0 <= i < |v| => EncodeByte(v[i]))
  }

  /** Encoding and decoding any bytes gives them back, sanitized. */
  lemma {:induction false} EncodeRoundTrip(v: seq<u8>)
    ensures forall i | 0 <= i < |v| :: GoodUnit(Encode(v)[i])
    ensures Meaning(Encode(v)) == seq(|v|, i requires 0 <= i < |v| => Sanitized(v[i]))
    decreases |v|
  {
    forall i | 0 <= i < |v| ensures GoodUnit(Encode(v)[i]) && UnitMeaning(Encode(v)[i]) == Sanitized(v[i]) {
      EncodeByteRoundTrip(v[i]);
    }
    if v != [] {
      assert Encode(v)[1..] == Encode(v[1..]);
      EncodeRoundTrip(v[1..]);
    }
  }

  lemma EncodeByteRoundTrip(b: u8)
    ensures GoodUnit(EncodeByte(b)) && UnitMeaning(EncodeByte(b)) == Sanitized(b)
  {
    hide HexChar, Hex2Int, HexDigit;
    HexRoundTrip(b / 16);
    HexRoundTrip(b % 16);
    assert b == 16 * (b / 16) + b % 16;
  }

  /** The digit of `v` in either case. */
  function Digit(v: nat, upper: bool): u8
    requires v < 16
  {
    if v < 10 then 48 + v else if upper then 55 + v else 87 + v
  }

  /** An escape, with its digits in any case, means its byte; only 0 to 31, the quote,
      the backslash and 127 become a space. */
  lemma EscapeMeans(b: u8, up: bool, up2: bool)
    ensures var u := Escape(Digit(b / 16, up), Digit(b % 16, up2));
            && GoodUnit(u)
            && UnitMeaning(u) == if b <= 31 || b == 34 || b == 92 || b == 127 then 32 else b
  {
    var hi, lo := Digit(b / 16, up), Digit(b % 16, up2);
    assert Hex2Int(hi) == b / 16 && Hex2Int(lo) == b % 16;
    assert 16 * (b / 16) + b % 16 == b;
  }

  /** What is no digit counts as 0. */
  lemma NoDigit(c: u8)
    ensures HexDigit(c) <==> exists v, up :: 0 <= v < 16 && c == Digit(v, up)
    ensures !HexDigit(c) ==> Hex2Int(c) == 0
  {
    if HexDigit(c) {
      var up := c < 97;
      var v := if c <= 57 then c - 48 else if up then c - 55 else c - 87;
      assert c == Digit(v, up);
    }
  }

  lemma HexRoundTrip(v: nat)
    requires v < 16
    ensures HexDigit(HexChar(v)) && Hex2Int(HexChar(v)) == v
  {}

  function Encoded(ps: seq<Pair>): seq<Field>
  {
    seq(|ps|, i requires 0 <= i < |ps| => Field(ps[i].key, Encode(ps[i].value)))
  }

  function SanitizedPair(p: Pair): Pair
  {
    Pair(p.key, seq(|p.value|, i requires 0 <= i < |p.value| => Sanitized(p.value[i])))
  }

  /** Any pairs within the size limits, form-encoded into a GET request, are what the
      parser delivers: the values of any bytes, escaped control characters, quotes and
      backslashes turned into spaces; all of up to 60 pairs, else the first 59. */
  lemma PairsRoundTrip(page: seq<u8>, ps: seq<Pair>, header: seq<u8>, n: nat)
    requires GoodPage(page, n)
    requires forall i | 0 <= i < |ps| :: GoodKey(ps[i].key) && |ps[i].value| < VALUE_SIZE
    ensures var all := seq(|ps|, i requires 0 <= i < |ps| => SanitizedPair(ps[i]));
            Run(INITIAL, Request(page, Encoded(ps), header), n) ==
            Done(page, if |ps| <= NUM_KEY_VALUES then all else all[..NUM_KEY_VALUES - 1])
  {
    hide Run, Request, Encode, Meaning, GoodUnit, Sanitized;
    forall i | 0 <= i < |ps|
      ensures GoodField(Encoded(ps)[i]) && FieldMeaning(Encoded(ps)[i]) == SanitizedPair(ps[i])
    {
      EncodeRoundTrip(ps[i].value);
      EncodedLength(ps[i].value);
    }
    RequestRoundTrip(page, Encoded(ps), header, n);
    assert FieldsMeaning(Encoded(ps)) == seq(|ps|, i requires 0 <= i < |ps| => SanitizedPair(ps[i]));
  }

  lemma EncodedLength(v: seq<u8>)
    ensures |Encode(v)| == |v|
  {}
}
