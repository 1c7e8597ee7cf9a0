/** A master and a remote station joined by two lossy links: requests one way,
    answers the other, both stations living their own lives in between. */
module Network {
  import opened Words
  import opened Site
  import opened Scheduler
  import opened SchedulerInvariant
  import opened ZoneProtocol
  import opened Runs
  import opened OutputType
  import MoteinoRF

  type Tries = seq<MoteinoRF.Outcome>

  /** The two stations, and the fates of all messages sent so far in each direction. */
  datatype Network = Network(master: State, remote: State, there: seq<Tries>, back: seq<Tries>)

  /** The next message, with fate `t` after history `h`, is handed to the other side. */
  predicate Delivered(h: seq<Tries>, t: Tries)
  {
    MoteinoRF.SendAll(MoteinoRF.FRESH, h + [t]).handed != MoteinoRF.SendAll(MoteinoRF.FRESH, h).handed
  }

  /** Fewer than 254 messages in a row have been wholly lost. */
  predicate InTouch(h: seq<Tries>)
  {
    var j := MoteinoRF.LastArrived(h, |h|);
    j < 0 || |h| - j <= 254
  }

  /** On a link that is in touch, a message is delivered exactly if a copy arrives. */
  lemma DeliveredIffArrives(h: seq<Tries>, t: Tries)
    requires InTouch(h)
    ensures Delivered(h, t) <==> MoteinoRF.Arrives(t)
  {
    hide MoteinoRF.SendAll, MoteinoRF.Arrives;
    var n := |h|;
    assert (h + [t])[..n] == h && (h + [t])[n] == t;
    MoteinoRF.HandedNext(MoteinoRF.RESERVED, h + [t]);
    MoteinoRF.LastArrivedPrefix(h + [t], n, n);
    var a := MoteinoRF.SendAll(MoteinoRF.FRESH, h).handed;
    assert |a + [n]| != |a| && a + [] == a;
  }

  datatype Request = Set(set_: ZonesSet) | Read(read: ZonesRead)

  /** The answers go back one by one; those delivered are heard by the master. */
  function Answer(n: Network, answers: seq<Reply>, fates: seq<Tries>): Network
    requires |fates| >= |answers|
    decreases |answers|
  {
    if answers == [] then n
    else
      var master := if Delivered(n.back, fates[0]) then Hear(n.master, answers[..1]) else n.master;
      Answer(n.(master := master, back := n.back + [fates[0]]), answers[1..], fates[1..])
  }

  function Carried(s: State, r: Request, now: Moment): State
  {
    match r
    case Set(m) => HandleSet(s, m, now)
    case Read(_) => s
  }

  function AnswersTo(s: State, r: Request, now: Moment): (a: seq<Reply>)
    ensures |a| <= 2
  {
    match r
    case Set(m) => AnswerSet(s, HandleSet(s, m, now), m)
    case Read(m) => AnswerRead(s, m)
  }

  /** A request is sent; if it is delivered, the remote carries it out and answers. */
  function Ask(n: Network, r: Request, tries: Tries, fates: seq<Tries>, now: Moment): Network
    requires |fates| == 2
  {
    var n1 := n.(there := n.there + [tries]);
    if !Delivered(n.there, tries) then n1
    else Answer(n1.(remote := Carried(n.remote, r, now)), AnswersTo(n.remote, r, now), fates)
  }

  datatype Action =
    | Exchange(request: Request, tries: Tries, fates: seq<Tries>, now: Moment)
    | AtMaster(input: Input, now: Moment)
    | AtRemote(input: Input, now: Moment)
    | OtherThere(tries: Tries)       // messages that are none of the zones' business
    | OtherBack(tries: Tries)

  function StepNet(n: Network, a: Action): Network
  {
    match a
    case Exchange(r, tries, fates, now) => if |fates| == 2 then Ask(n, r, tries, fates, now) else n
    case AtMaster(x, now) => n.(master := Step(n.master, x, now))
    case AtRemote(x, now) => n.(remote := Step(n.remote, x, now))
    case OtherThere(tries) => n.(there := n.there + [tries])
    case OtherBack(tries) => n.(back := n.back + [tries])
  }

  function RunNet(n: Network, acts: seq<Action>): Network
    decreases |acts|
  {
    if acts == [] then n else RunNet(StepNet(n, acts[0]), acts[1..])
  }

  function StationOf(r: Request): u8
  {
    match r
    case Set(m) => m.to
    case Read(m) => m.to
  }

  /** Requests go to station `st`; the local inputs keep the demands of Runs. */
  predicate Proper(n: Network, st: u8, a: Action)
  {
    match a
    case Exchange(r, _, _, _) => StationOf(r) == st
    case AtMaster(x, now) => Admissible(n.master, x, now)
    case AtRemote(x, now) => Admissible(n.remote, x, now)
    case _ => true
  }

  predicate AllProper(n: Network, st: u8, acts: seq<Action>)
    decreases |acts|
  {
    acts == [] || (Proper(n, st, acts[0]) && AllProper(StepNet(n, acts[0]), st, acts[1..]))
  }

  /** Both stations are sound, they agree on station `st`, and it is not one of the
      master's own. */
  ghost predicate Joined(n: Network, st: u8)
  {
    Inv(n.master) && Matched(n.master, n.remote, st) && !IsLocalStation(n.master.cfg, st)
  }

  // ----- every step keeps the network sound -----

  lemma StepStations(s: State, x: Input, now: Moment)
    ensures Step(s, x, now).cfg.stations == s.cfg.stations
  {
    hide Poll, Stop, StartQuick, StartStored, StartZone, TurnOffAll, HandleSet, HandleReport, SetPause, Tick, PauseEnd,
         SetOutputTypes;
    if x.SaveSettings? { AllSetUp(s, x.types, now); }
  }

  lemma HearKeeps(s: State, a: Reply, st: u8)
    requires Inv(s) && Tiled(s.cfg) && !IsLocalStation(s.cfg, st) && (a.Status? ==> a.report.from == st)
    ensures Inv(Hear(s, [a])) && Hear(s, [a]).cfg == s.cfg
  {
    hide Report, Tiled, Inv;
    var s1 := if a.Status? then HandleReport(s, a.report) else s;
    assert [a][1..] == [];
    assert Hear(s1, []) == s1;
    if a.Status? { ReportKeeps(s, st, a.report.data); }
  }

  lemma {:induction false} AnswerKeeps(n: Network, st: u8, answers: seq<Reply>, fates: seq<Tries>)
    requires Joined(n, st) && |fates| >= |answers|
    requires forall i | 0 <= i < |answers| && answers[i].Status? :: answers[i].report.from == st
    ensures Joined(Answer(n, answers, fates), st)
    decreases |answers|
  {
    hide Hear, Delivered, Inv, Tiled;
    if answers != [] {
      assert answers[..1] == [answers[0]];
      HearKeeps(n.master, answers[0], st);
      var master := if Delivered(n.back, fates[0]) then Hear(n.master, answers[..1]) else n.master;
      AnswerKeeps(n.(master := master, back := n.back + [fates[0]]), st, answers[1..], fates[1..]);
    }
  }

  lemma AnswersComeFrom(s: State, r: Request, now: Moment)
    ensures var a := AnswersTo(s, r, now);
            forall i | 0 <= i < |a| && a[i].Status? :: a[i].report.from == StationOf(r)
  {
    hide StatusBits, SetAccepted, HandleSet;
  }

  lemma AskKeeps(n: Network, st: u8, r: Request, tries: Tries, fates: seq<Tries>, now: Moment)
    requires Joined(n, st) && |fates| == 2 && StationOf(r) == st
    ensures Joined(Ask(n, r, tries, fates, now), st)
  {
    hide Delivered, Inv, Tiled, HandleSet, AnswersTo, Answer;
    if r.Set? { HandleSetKeeps(n.remote, r.set_, now); }
    AnswersComeFrom(n.remote, r, now);
    var n1 := n.(there := n.there + [tries], remote := Carried(n.remote, r, now));
    AnswerKeeps(n1, st, AnswersTo(n.remote, r, now), fates);
  }

  lemma StepNetKeeps(n: Network, st: u8, a: Action)
    requires Joined(n, st) && Proper(n, st, a)
    ensures Joined(StepNet(n, a), st)
  {
    hide Inv, Tiled, Step, Ask, Admissible;
    match a
    case Exchange(r, tries, fates, now) => if |fates| == 2 { AskKeeps(n, st, r, tries, fates, now); }
    case AtMaster(x, now) =>
      StepKeeps(n.master, x, now);
      StepTiled(n.master, x, now);
      StepStations(n.master, x, now);
    case AtRemote(x, now) =>
      StepKeeps(n.remote, x, now);
      StepTiled(n.remote, x, now);
      StepStations(n.remote, x, now);
    case _ =>
  }

  lemma {:induction false} RunNetKeeps(n: Network, st: u8, acts: seq<Action>)
    requires Joined(n, st) && AllProper(n, st, acts)
    ensures Joined(RunNet(n, acts), st)
    decreases |acts|
  {
    hide StepNet, Proper, Joined;
    if acts != [] {
      StepNetKeeps(n, st, acts[0]);
      RunNetKeeps(StepNet(n, acts[0]), st, acts[1..]);
    }
  }

  // ----- the exchange over the air -----

  /** Requests after whose answer the master knows the whole station: a switch request
      that is carried out and asks for a report only, or a read of all channels. */
  ghost predicate Telling(s: State, r: Request)
  {
    match r
    case Set(m) => m.to < MAX_STATIONS && Switches(m) && m.flags == FLAGS_ACK_STD
                   && (var st := s.cfg.stations[m.to];
                       st.valid && st.enabled && st.rcontrol && 1 <= m.num && m.first + m.num <= st.channels)
    case Read(m) => m.to < MAX_STATIONS && m == ZonesRead(m.to, 0, ALL_ZONES)
                    && s.cfg.stations[m.to].rstatus && s.cfg.stations[m.to].channels >= 1
  }

  lemma OneAnswer(n: Network, st: u8, r: Request, now: Moment)
    requires Joined(n, st) && StationOf(r) == st && Telling(n.remote, r)
    ensures |AnswersTo(n.remote, r, now)| == 1 && AnswersTo(n.remote, r, now)[0].Status?
    ensures InStep(Hear(n.master, AnswersTo(n.remote, r, now)), Carried(n.remote, r, now), st)
  {
    hide Hear, Inv, Tiled, HandleSet, StatusBits, Switches;
    match r
    case Set(m) =>
      StdFlags();
      SetExchange(n.master, n.remote, m, now);
      AcceptedAnswer(n.remote, m, now);
    case Read(m) =>
      ReadExchange(n.master, n.remote, st);
      ReportBringsInStep(n.master, n.remote, st, 0, n.remote.cfg.stations[st].channels);
  }

  lemma AcceptedAnswer(s: State, m: ZonesSet, now: Moment)
    requires SetAccepted(s, m) && m.flags == FLAGS_ACK_STD
    ensures |AnswersTo(s, Set(m), now)| == 1 && AnswersTo(s, Set(m), now)[0].Status?
  {
    hide StatusBits, HandleSet;
    StdFlags();
    assert HandleSet(s, m, now).cfg == s.cfg;
  }

  /** One answer, delivered. */
  lemma AskOneAnswer(n: Network, r: Request, tries: Tries, fates: seq<Tries>, now: Moment)
    requires |fates| == 2 && Delivered(n.there, tries) && Delivered(n.back, fates[0])
    requires |AnswersTo(n.remote, r, now)| == 1
    ensures Ask(n, r, tries, fates, now) ==
            Network(Hear(n.master, AnswersTo(n.remote, r, now)), Carried(n.remote, r, now),
                    n.there + [tries], n.back + [fates[0]])
  {
    hide Delivered, Hear, AnswersTo, Carried;
    var answers := AnswersTo(n.remote, r, now);
    assert answers[..1] == answers && answers[1..] == [];
    var n1 := Network(n.master, Carried(n.remote, r, now), n.there + [tries], n.back);
    var n2 := n1.(master := Hear(n.master, answers), back := n.back + [fates[0]]);
    assert Answer(n2, [], fates[1..]) == n2;
    assert Answer(n1, answers, fates) == n2;
  }

  /** A request of which no copy gets through leaves both stations as they were; one that
      gets through is carried out once, and its answer changes the master's cells at most,
      if and only if the answer gets through, too. Both histories grow by what was sent. */
  lemma ExchangeOutcome(n: Network, r: Request, tries: Tries, fates: seq<Tries>, now: Moment)
    requires InTouch(n.there) && InTouch(n.back) && |fates| == 2 && |AnswersTo(n.remote, r, now)| == 1
    ensures var a := StepNet(n, Exchange(r, tries, fates, now));
            && a.there == n.there + [tries]
            && (if !MoteinoRF.Arrives(tries) then a.remote == n.remote && a.master == n.master && a.back == n.back
                else
                  && a.remote == Carried(n.remote, r, now) && a.back == n.back + [fates[0]]
                  && a.master == if MoteinoRF.Arrives(fates[0]) then Hear(n.master, AnswersTo(n.remote, r, now))
                                 else n.master)
  {
    hide Delivered, InTouch, Hear, AnswersTo, Carried, MoteinoRF.Arrives;
    DeliveredIffArrives(n.there, tries);
    DeliveredIffArrives(n.back, fates[0]);
    var answers := AnswersTo(n.remote, r, now);
    assert answers[..1] == answers && answers[1..] == [];
    var n1 := n.(there := n.there + [tries], remote := Carried(n.remote, r, now));
    var master := if Delivered(n.back, fates[0]) then Hear(n.master, answers[..1]) else n.master;
    var n2 := n1.(master := master, back := n.back + [fates[0]]);
    assert Answer(n2, [], fates[1..]) == n2;
    assert Delivered(n.there, tries) ==> Ask(n, r, tries, fates, now) == Answer(n1, answers, fates);
  }

  /** Other messages leave both stations alone and are counted on their link. */
  lemma OtherMessages(n: Network, tries: Tries)
    ensures StepNet(n, OtherThere(tries)) == Network(n.master, n.remote, n.there + [tries], n.back)
    ensures StepNet(n, OtherBack(tries)) == Network(n.master, n.remote, n.there, n.back + [tries])
  {}

  /** After any run of a sound network, with any losses on both links: if a telling
      request and its answer each get through once in their bounded tries, the
      master's cells for all channels of the station are the remote's cells. */
  lemma InStepAfterAnyRun(n0: Network, st: u8, acts: seq<Action>, r: Request,
                          tries: Tries, fates: seq<Tries>, now: Moment)
    requires Joined(n0, st) && AllProper(n0, st, acts) && |fates| == 2 && StationOf(r) == st
    requires var n := RunNet(n0, acts);
             Telling(n.remote, r) && InTouch(n.there) && InTouch(n.back)
    requires MoteinoRF.Arrives(tries) && MoteinoRF.Arrives(fates[0])
    ensures var n := Ask(RunNet(n0, acts), r, tries, fates, now);
            Joined(n, st) && InStep(n.master, n.remote, st)
  {
    hide RunNet, AllProper, Joined, Telling, Delivered, InTouch, Hear, AnswersTo, Carried, MoteinoRF.Arrives;
    RunNetKeeps(n0, st, acts);
    var n := RunNet(n0, acts);
    DeliveredIffArrives(n.there, tries);
    DeliveredIffArrives(n.back, fates[0]);
    OneAnswer(n, st, r, now);
    AskKeeps(n, st, r, tries, fates, now);
    AskOneAnswer(n, r, tries, fates, now);
  }
}
