/** Byzantine reliable broadcast: the edge-triggered node against its level-triggered specification,
    and agreement, integrity, totality and validity over every run of one instance. */
module BroadcastRuns {
  import opened Quorums
  import opened BroadcastNode

  // ---- one node: edge triggers refine level triggers

  ghost function After(s: State, from: seq<Uuid>, msgs: seq<Message>): State
    requires |from| == |msgs|
  {
    if msgs == [] then s
    else Handle(After(s, from[..|msgs| - 1], msgs[..|msgs| - 1]), from[|msgs| - 1], msgs[|msgs| - 1])
  }

  ghost predicate SendersIn(s: State, peers: set<Uuid>) {
    s.echoFrom.Keys + s.readyFrom.Keys <= peers
  }

  lemma HandleStep(s: State, from: Uuid, msg: Message, peers: set<Uuid>)
    requires Inv(s) && SendersIn(s, peers) && from in peers
    ensures var t := Handle(s, from, msg); Inv(t) && SendersIn(t, peers) && t.n == s.n && t.f == s.f
  {
    HandleInv(s, from, msg);
  }

  lemma {:induction false} AfterInv(s: State, from: seq<Uuid>, msgs: seq<Message>, peers: set<Uuid>)
    requires |from| == |msgs| && Inv(s) && SendersIn(s, peers)
    requires forall i :: 0 <= i < |from| ==> from[i] in peers
    ensures var t := After(s, from, msgs); Inv(t) && SendersIn(t, peers) && t.n == s.n && t.f == s.f
    decreases |msgs|
  {
    if msgs != [] {
      var k := |msgs| - 1;
      var t := After(s, from[..k], msgs[..k]);
      AfterInv(s, from[..k], msgs[..k], peers);
      HandleStep(t, from[k], msgs[k], peers);
    }
  }

  // Two messages cannot both collect n - f readies from n peers.
  lemma OneDelivery(s: State, peers: set<Uuid>)
    requires Inv(s) && SendersIn(s, peers) && |peers| <= s.n
    ensures |s.delivered| <= 1
  {
    if |s.delivered| > 1 {
      var a, b := s.delivered[0], s.delivered[1];
      assert DeliverBacked(s.n, s.f, s.readyFrom, a) && DeliverBacked(s.n, s.f, s.readyFrom, b);
      UnionSize(From(s.readyFrom, a), From(s.readyFrom, b));
      assert From(s.readyFrom, a) * From(s.readyFrom, b) == {};
      SubsetSize(From(s.readyFrom, a) + From(s.readyFrom, b), peers);
    }
  }

  // The `>=` specification of a node, over the sends, echoes and readies it was sent; what it puts out is
  // itself backed.
  ghost predicate LevelTriggered(s: State, n: nat, f: nat, sends: seq<Bytes>, e: Votes, r: Votes) {
    && |s.echoOut| <= 1 && |s.readyOut| <= 1 && |s.output| == |s.delivered| <= 1
    && (|s.echoOut| == 1 <==> exists m :: EchoBacked(f, sends, e, r, m))
    && (|s.readyOut| == 1 <==> exists m :: ReadyBacked(n, f, e, r, m))
    && (forall m :: m in s.echoOut ==> EchoBacked(f, sends, e, r, m))
    && (forall m :: m in s.readyOut ==> ReadyBacked(n, f, e, r, m))
    && (forall m :: s.delivered == [m] <==> DeliverBacked(n, f, r, m))
    && Parsed(s.output, s.delivered)
  }

  // ---- the messages themselves

  // The first echo of each peer.
  function FirstEchoes(from: seq<Uuid>, msgs: seq<Message>): Votes
    requires |from| == |msgs|
  {
    if msgs == [] then map[]
    else
      var k := |msgs| - 1;
      var before := FirstEchoes(from[..k], msgs[..k]);
      if msgs[k].Echo? && from[k] !in before then before[from[k] := msgs[k].m] else before
  }

  // The first ready of each peer.
  function FirstReadies(from: seq<Uuid>, msgs: seq<Message>): Votes
    requires |from| == |msgs|
  {
    if msgs == [] then map[]
    else
      var k := |msgs| - 1;
      var before := FirstReadies(from[..k], msgs[..k]);
      if msgs[k].Ready? && from[k] !in before then before[from[k] := msgs[k].m] else before
  }

  // The sends, each with its sender's bytes in front.
  function AllSends(from: seq<Uuid>, msgs: seq<Message>): seq<Bytes>
    requires |from| == |msgs|
  {
    if msgs == [] then []
    else
      var k := |msgs| - 1;
      AllSends(from[..k], msgs[..k]) + if msgs[k].Send? then [from[k] + msgs[k].content] else []
  }

  // A peer is in a map of first messages exactly if it sent one, and with one that no other came before.
  lemma {:induction false} FirstsMean(from: seq<Uuid>, msgs: seq<Message>, p: Uuid)
    requires |from| == |msgs|
    ensures p in FirstEchoes(from, msgs) <==> exists i :: 0 <= i < |msgs| && from[i] == p && msgs[i].Echo?
    ensures p in FirstReadies(from, msgs) <==> exists i :: 0 <= i < |msgs| && from[i] == p && msgs[i].Ready?
    ensures forall i :: 0 <= i < |msgs| && from[i] == p && msgs[i].Echo? && NoneBefore(from, msgs, p, i, true) ==> FirstEchoes(from, msgs)[p] == msgs[i].m
    ensures forall i :: 0 <= i < |msgs| && from[i] == p && msgs[i].Ready? && NoneBefore(from, msgs, p, i, false) ==> FirstReadies(from, msgs)[p] == msgs[i].m
    decreases |msgs|
  {
    if msgs != [] {
      var k := |msgs| - 1;
      FirstsMean(from[..k], msgs[..k], p);
      forall i, echo: bool | 0 <= i < k && NoneBefore(from, msgs, p, i, echo) ensures NoneBefore(from[..k], msgs[..k], p, i, echo) {
      }
    }
  }

  ghost predicate NoneBefore(from: seq<Uuid>, msgs: seq<Message>, p: Uuid, i: nat, echo: bool)
    requires |from| == |msgs|
  {
    forall j :: 0 <= j < i && j < |msgs| && from[j] == p ==> if echo then !msgs[j].Echo? else !msgs[j].Ready?
  }

  lemma {:induction false} CountersAreFirsts(s: State, from: seq<Uuid>, msgs: seq<Message>)
    requires |from| == |msgs| && s.echoFrom == map[] && s.readyFrom == map[] && s.sends == []
    ensures var t := After(s, from, msgs);
            && t.echoFrom == FirstEchoes(from, msgs) && t.readyFrom == FirstReadies(from, msgs) && t.sends == AllSends(from, msgs)
    decreases |msgs|
  {
    if msgs != [] {
      var k := |msgs| - 1;
      CountersAreFirsts(s, from[..k], msgs[..k]);
      HandleGrows(After(s, from[..k], msgs[..k]), from[k], msgs[k]);
    }
  }

  lemma Levels(s: State, peers: set<Uuid>)
    requires Inv(s) && SendersIn(s, peers) && |peers| <= s.n
    ensures LevelTriggered(s, s.n, s.f, s.sends, s.echoFrom, s.readyFrom)
  {
    OneDelivery(s, peers);
    if s.echoed {
      assert EchoBacked(s.f, s.sends, s.echoFrom, s.readyFrom, s.echoOut[0]);
    }
    if s.readied {
      assert ReadyBacked(s.n, s.f, s.echoFrom, s.readyFrom, s.readyOut[0]);
    }
    forall m ensures s.delivered == [m] <==> DeliverBacked(s.n, s.f, s.readyFrom, m) {
      assert m in s.delivered <==> s.delivered == [m];
    }
  }

  // After any messages from at most n peers, the `==` tests and the forwarding between phases leave
  // the node where `>=` tests over the first messages of each peer would, with one echo, ready and delivery
  // at most.
  lemma EdgeRefinesLevel(n: nat, f: nat, from: seq<Uuid>, msgs: seq<Message>, peers: set<Uuid>)
    requires n > 2 * f && |from| == |msgs| && |peers| <= n
    requires forall i :: 0 <= i < |from| ==> from[i] in peers
    ensures LevelTriggered(After(Fresh(n, f), from, msgs), n, f,
                           AllSends(from, msgs), FirstEchoes(from, msgs), FirstReadies(from, msgs))
  {
    FreshInv(n, f);
    AfterInv(Fresh(n, f), from, msgs, peers);
    Levels(After(Fresh(n, f), from, msgs), peers);
    CountersAreFirsts(Fresh(n, f), from, msgs);
  }

  // ---- the group

  // Only the owner of an instance can send in it, because the instance id is derived from the
  // sender's key; `content` is what the owner broadcasts if it is correct.
  datatype Instance = Instance(owner: Uuid, content: Bytes)

  type System = map<Uuid, State>
  type Peers = GroupOf<Uuid>

  ghost predicate Backed(g: Peers, inst: Instance, sys: System, from: Uuid, msg: Message) {
    && from in g.Members()
    && match msg
       case Send(content) => from == inst.owner && (from in g.correct ==> content == inst.content)
       case Echo(m) => from in g.correct ==> from in sys && m in sys[from].echoOut
       case Ready(m) => from in g.correct ==> from in sys && m in sys[from].readyOut
  }

  ghost predicate Step(g: Peers, inst: Instance, sys: System, p: Uuid, from: Uuid, msg: Message, sys': System) {
    p in sys && Backed(g, inst, sys, from, msg) && sys' == sys[p := Handle(sys[p], from, msg)]
  }

  ghost predicate Next(g: Peers, inst: Instance, sys: System, sys': System) {
    exists p, from, msg :: Step(g, inst, sys, p, from, msg, sys')
  }

  ghost function Initial(g: Peers): System {
    map p | p in g.correct :: Fresh(g.n, g.f)
  }

  ghost predicate IsRun(g: Peers, inst: Instance, run: seq<System>) {
    && |run| > 0 && run[0] == Initial(g)
    && forall i :: 0 <= i < |run| - 1 ==> Next(g, inst, run[i], run[i + 1])
  }

  // ---- the invariant

  ghost predicate NodeOk(g: Peers, s: State) {
    Inv(s) && s.n == g.n && s.f == g.f
  }

  ghost predicate EchoesOk(g: Peers, sys: System, votes: Votes) {
    forall q :: q in votes ==> q in g.Members() && (q in g.correct ==> q in sys && votes[q] in sys[q].echoOut)
  }

  ghost predicate ReadiesOk(g: Peers, sys: System, votes: Votes) {
    forall q :: q in votes ==> q in g.Members() && (q in g.correct ==> q in sys && votes[q] in sys[q].readyOut)
  }

  // A send for m was received by a correct node.
  ghost predicate SendSeen(sys: System, m: Bytes) {
    exists p :: p in sys && m in sys[p].sends
  }

  // A correct node counted a quorum of echoes of m.
  ghost predicate EchoQuorum(g: Peers, sys: System, m: Bytes) {
    exists p :: p in sys && Count(sys[p].echoFrom, m) >= g.n - g.f
  }

  ghost predicate SendsOk(g: Peers, inst: Instance, s: State) {
    forall m :: m in s.sends ==> inst.owner <= m && (inst.owner in g.correct ==> m == inst.owner + inst.content)
  }

  ghost predicate SysOk(g: Peers, inst: Instance, sys: System, s: State) {
    && EchoesOk(g, sys, s.echoFrom) && ReadiesOk(g, sys, s.readyFrom) && SendsOk(g, inst, s)
    && (forall m :: m in s.echoOut ==> SendSeen(sys, m))
    && (forall m :: m in s.readyOut ==> EchoQuorum(g, sys, m))
  }

  ghost predicate NodesOk(g: Peers, sys: System) {
    forall p :: p in sys ==> NodeOk(g, sys[p])
  }

  ghost predicate SystemOk(g: Peers, inst: Instance, sys: System) {
    forall p :: p in sys ==> SysOk(g, inst, sys, sys[p])
  }

  ghost predicate Good(g: Peers, inst: Instance, sys: System) {
    && g.Valid() && sys.Keys == g.correct
    && NodesOk(g, sys) && SystemOk(g, inst, sys)
  }

  // ---- consequences in one state

  lemma CorrectEchoer(g: Peers, sys: System, votes: Votes, m: Bytes) returns (q: Uuid)
    requires g.Valid() && EchoesOk(g, sys, votes) && Count(votes, m) > g.f
    ensures q in sys && q in g.correct && m in sys[q].echoOut
  {
    q := SomeCorrect(g, From(votes, m));
  }

  lemma CorrectReadier(g: Peers, sys: System, votes: Votes, m: Bytes) returns (q: Uuid)
    requires g.Valid() && ReadiesOk(g, sys, votes) && Count(votes, m) > g.f
    ensures q in sys && q in g.correct && m in sys[q].readyOut
  {
    q := SomeCorrect(g, From(votes, m));
  }

  lemma QuorumSendSeen(g: Peers, inst: Instance, sys: System, m: Bytes)
    requires Good(g, inst, sys) && EchoQuorum(g, sys, m)
    ensures SendSeen(sys, m)
  {
    var p :| p in sys && Count(sys[p].echoFrom, m) >= g.n - g.f;
    assert SysOk(g, inst, sys, sys[p]);
    var q := CorrectEchoer(g, sys, sys[p].echoFrom, m);
    assert SysOk(g, inst, sys, sys[q]);
  }

  lemma OneEcho(s: State, a: Bytes, b: Bytes)
    requires Inv(s) && a in s.echoOut && b in s.echoOut
    ensures a == b
  {
  }

  // ---- preservation

  lemma FromGrows(votes: Votes, p: Uuid, m: Bytes, x: Bytes)
    requires p !in votes
    ensures Count(votes, x) <= Count(votes[p := m], x)
  {
    CountGrows(votes, p, m, x);
  }

  ghost predicate Extends(s: State, t: State) {
    t.n == s.n && t.f == s.f && s.echoOut <= t.echoOut && s.readyOut <= t.readyOut && s.sends <= t.sends
  }

  lemma HandleGrows(s: State, from: Uuid, msg: Message)
    ensures var t := Handle(s, from, msg);
            && Extends(s, t)
            && t.echoFrom == (if msg.Echo? && from !in s.echoFrom then s.echoFrom[from := msg.m] else s.echoFrom)
            && t.readyFrom == (if msg.Ready? && from !in s.readyFrom then s.readyFrom[from := msg.m] else s.readyFrom)
            && t.sends == (if msg.Send? then s.sends + [from + msg.content] else s.sends)
  {
    match msg
    case Send(content) =>
    case Echo(m) => EchoGrows(s, m, from);
    case Ready(m) => ReadyGrows(s, m, from);
  }

  lemma EchoGrows(s: State, m: Bytes, from: Uuid)
    ensures var t := HandleEcho(s, m, from);
            && Extends(s, t) && t.sends == s.sends && t.readyFrom == s.readyFrom
            && t.echoFrom == (if from in s.echoFrom then s.echoFrom else s.echoFrom[from := m])
  {
  }

  lemma ReadyGrows(s: State, m: Bytes, from: Uuid)
    ensures var t := HandleReady(s, m, from);
            && Extends(s, t) && t.sends == s.sends && t.echoFrom == s.echoFrom
            && t.readyFrom == (if from in s.readyFrom then s.readyFrom else s.readyFrom[from := m])
  {
  }

  ghost predicate Grows(g: Peers, sys: System, sys': System) {
    && sys.Keys == sys'.Keys
    && (forall p :: p in sys ==> sys[p].echoOut <= sys'[p].echoOut && sys[p].readyOut <= sys'[p].readyOut)
    && (forall m :: SendSeen(sys, m) ==> SendSeen(sys', m))
    && (forall m :: EchoQuorum(g, sys, m) ==> EchoQuorum(g, sys', m))
  }

  lemma StepGrows(g: Peers, inst: Instance, sys: System, p: Uuid, from: Uuid, msg: Message, sys': System)
    requires Step(g, inst, sys, p, from, msg, sys')
    ensures Grows(g, sys, sys')
  {
    HandleGrows(sys[p], from, msg);
    forall m | SendSeen(sys, m) ensures SendSeen(sys', m) {
      var q :| q in sys && m in sys[q].sends;
      assert m in sys'[q].sends;
    }
    forall m | EchoQuorum(g, sys, m) ensures EchoQuorum(g, sys', m) {
      var q :| q in sys && Count(sys[q].echoFrom, m) >= g.n - g.f;
      if q == p && msg.Echo? && sys'[p].echoFrom != sys[p].echoFrom {
        FromGrows(sys[p].echoFrom, from, msg.m, m);
      }
      assert Count(sys'[q].echoFrom, m) >= g.n - g.f;
    }
  }

  lemma SysGrows(g: Peers, inst: Instance, sys: System, sys': System, s: State)
    requires SysOk(g, inst, sys, s) && Grows(g, sys, sys')
    ensures SysOk(g, inst, sys', s)
  {
  }

  // The counters of the acting node, against the group before the step.
  lemma CountersOk(g: Peers, inst: Instance, sys: System, p: Uuid, from: Uuid, msg: Message)
    requires p in sys && SysOk(g, inst, sys, sys[p]) && Backed(g, inst, sys, from, msg)
    ensures var t := Handle(sys[p], from, msg);
            EchoesOk(g, sys, t.echoFrom) && ReadiesOk(g, sys, t.readyFrom) && SendsOk(g, inst, t)
  {
    HandleGrows(sys[p], from, msg);
  }

  lemma NewEcho(g: Peers, inst: Instance, sys: System, p: Uuid, t: State, sys': System, m: Bytes)
    requires Good(g, inst, sys) && p in sys && Grows(g, sys, sys') && sys'[p] == t && NodeOk(g, t)
    requires EchoesOk(g, sys, t.echoFrom) && ReadiesOk(g, sys, t.readyFrom)
    requires m in t.echoOut
    ensures SendSeen(sys', m)
  {
    assert EchoBacked(t.f, t.sends, t.echoFrom, t.readyFrom, m);
    if m in t.sends {
    } else if Count(t.echoFrom, m) > t.f {
      var q := CorrectEchoer(g, sys, t.echoFrom, m);
      assert SysOk(g, inst, sys, sys[q]);
    } else {
      var q := CorrectReadier(g, sys, t.readyFrom, m);
      assert SysOk(g, inst, sys, sys[q]);
      QuorumSendSeen(g, inst, sys, m);
    }
  }

  lemma NewReady(g: Peers, inst: Instance, sys: System, p: Uuid, t: State, sys': System, m: Bytes)
    requires Good(g, inst, sys) && p in sys && Grows(g, sys, sys') && sys'[p] == t && NodeOk(g, t)
    requires ReadiesOk(g, sys, t.readyFrom)
    requires m in t.readyOut
    ensures EchoQuorum(g, sys', m)
  {
    assert ReadyBacked(t.n, t.f, t.echoFrom, t.readyFrom, m);
    if Count(t.echoFrom, m) < g.n - g.f {
      var q := CorrectReadier(g, sys, t.readyFrom, m);
      assert SysOk(g, inst, sys, sys[q]);
    }
  }

  lemma ActingNode(g: Peers, inst: Instance, sys: System, p: Uuid, from: Uuid, msg: Message, sys': System)
    requires Good(g, inst, sys) && Step(g, inst, sys, p, from, msg, sys') && Grows(g, sys, sys')
    ensures NodeOk(g, sys'[p]) && SysOk(g, inst, sys', sys'[p])
  {
    var t := sys'[p];
    assert NodeOk(g, sys[p]) && SysOk(g, inst, sys, sys[p]);
    HandleInv(sys[p], from, msg);
    HandleGrows(sys[p], from, msg);
    CountersOk(g, inst, sys, p, from, msg);
    forall m | m in t.echoOut ensures SendSeen(sys', m) {
      NewEcho(g, inst, sys, p, t, sys', m);
    }
    forall m | m in t.readyOut ensures EchoQuorum(g, sys', m) {
      NewReady(g, inst, sys, p, t, sys', m);
    }
  }

  lemma StepGood(g: Peers, inst: Instance, sys: System, p: Uuid, from: Uuid, msg: Message, sys': System)
    requires Good(g, inst, sys) && Step(g, inst, sys, p, from, msg, sys')
    ensures Good(g, inst, sys')
  {
    StepGrows(g, inst, sys, p, from, msg, sys');
    ActingNode(g, inst, sys, p, from, msg, sys');
    OtherNodes(g, inst, sys, p, sys');
    OtherStates(g, sys, p, sys'[p]);
  }

  lemma OtherStates(g: Peers, sys: System, p: Uuid, t: State)
    requires NodesOk(g, sys) && NodeOk(g, t)
    ensures NodesOk(g, sys[p := t])
  {
  }

  lemma OtherNodes(g: Peers, inst: Instance, sys: System, p: Uuid, sys': System)
    requires Grows(g, sys, sys') && p in sys && SystemOk(g, inst, sys)
    requires sys' == sys[p := sys'[p]] && SysOk(g, inst, sys', sys'[p])
    ensures SystemOk(g, inst, sys')
  {
    forall q | q in sys' && q != p ensures SysOk(g, inst, sys', sys'[q]) {
      SysGrows(g, inst, sys, sys', sys[q]);
    }
  }

  lemma {:induction false} RunGood(g: Peers, inst: Instance, run: seq<System>, i: nat)
    requires g.Valid() && IsRun(g, inst, run) && i < |run|
    ensures Good(g, inst, run[i])
    decreases i
  {
    if i == 0 {
      FreshInv(g.n, g.f);
    } else {
      var j := i - 1;
      RunGood(g, inst, run, j);
      assert Next(g, inst, run[j], run[j + 1]);
      var p, from, msg :| Step(g, inst, run[j], p, from, msg, run[j + 1]);
      StepGood(g, inst, run[j], p, from, msg, run[j + 1]);
    }
  }

  ghost predicate Reachable(g: Peers, inst: Instance, sys: System) {
    exists run :: IsRun(g, inst, run) && sys == run[|run| - 1]
  }

  lemma ReachableGood(g: Peers, inst: Instance, sys: System)
    requires g.Valid() && Reachable(g, inst, sys)
    ensures Good(g, inst, sys)
  {
    var run :| IsRun(g, inst, run) && sys == run[|run| - 1];
    RunGood(g, inst, run, |run| - 1);
  }

  // ---- the theorems

  lemma OneEchoQuorum(g: Peers, inst: Instance, sys: System, a: Bytes, b: Bytes)
    requires g.Valid() && Reachable(g, inst, sys) && EchoQuorum(g, sys, a) && EchoQuorum(g, sys, b)
    ensures a == b
  {
    ReachableGood(g, inst, sys);
    var p :| p in sys && Count(sys[p].echoFrom, a) >= g.n - g.f;
    var q :| q in sys && Count(sys[q].echoFrom, b) >= g.n - g.f;
    assert SysOk(g, inst, sys, sys[p]) && SysOk(g, inst, sys, sys[q]);
    var r := QuorumsMeet(g, From(sys[p].echoFrom, a), From(sys[q].echoFrom, b));
    assert NodeOk(g, sys[r]);
    OneEcho(sys[r], a, b);
  }

  lemma DeliveredQuorum(g: Peers, inst: Instance, sys: System, p: Uuid, m: Bytes)
    requires g.Valid() && Reachable(g, inst, sys) && p in sys && m in sys[p].delivered
    ensures EchoQuorum(g, sys, m)
  {
    ReachableGood(g, inst, sys);
    assert NodeOk(g, sys[p]) && SysOk(g, inst, sys, sys[p]);
    assert DeliverBacked(g.n, g.f, sys[p].readyFrom, m);
    var q := CorrectReadier(g, sys, sys[p].readyFrom, m);
    assert SysOk(g, inst, sys, sys[q]);
  }

  // No two correct nodes send ready for, or deliver, different messages.
  lemma BroadcastAgreement(g: Peers, inst: Instance, sys: System, p: Uuid, q: Uuid, a: Bytes, b: Bytes)
    requires g.Valid() && Reachable(g, inst, sys) && p in sys && q in sys
    requires a in sys[p].readyOut || a in sys[p].delivered
    requires b in sys[q].readyOut || b in sys[q].delivered
    ensures a == b
  {
    ReachableGood(g, inst, sys);
    ReadyQuorum(g, inst, sys, p, a);
    ReadyQuorum(g, inst, sys, q, b);
    OneEchoQuorum(g, inst, sys, a, b);
  }

  lemma ReadyQuorum(g: Peers, inst: Instance, sys: System, p: Uuid, m: Bytes)
    requires g.Valid() && Reachable(g, inst, sys) && p in sys && (m in sys[p].readyOut || m in sys[p].delivered)
    ensures EchoQuorum(g, sys, m)
  {
    ReachableGood(g, inst, sys);
    if m in sys[p].readyOut {
      assert SysOk(g, inst, sys, sys[p]);
    } else {
      DeliveredQuorum(g, inst, sys, p, m);
    }
  }

  // Everything a correct node echoes, readies or delivers is the owner's 16 bytes followed by a
  // content that some correct node received in a send; so parsing never runs off the message and
  // yields that owner and content.
  lemma BroadcastIntegrity(g: Peers, inst: Instance, sys: System, p: Uuid, m: Bytes)
    requires g.Valid() && Reachable(g, inst, sys) && p in sys
    requires m in sys[p].echoOut || m in sys[p].readyOut || m in sys[p].delivered
    ensures SendSeen(sys, m) && |m| >= 16
    ensures ParseMsg(m) == Delivery(inst.owner, m[16..]) && m == inst.owner + m[16..]
    ensures inst.owner in g.correct ==> m[16..] == inst.content
    ensures OutOfRange !in sys[p].output
  {
    ReachableGood(g, inst, sys);
    if m in sys[p].echoOut {
      assert SysOk(g, inst, sys, sys[p]);
    } else {
      ReadyQuorum(g, inst, sys, p, m);
      QuorumSendSeen(g, inst, sys, m);
    }
    SeenShape(g, inst, sys, m);
    forall i | 0 <= i < |sys[p].output| ensures sys[p].output[i] != OutOfRange {
      assert NodeOk(g, sys[p]);
      var x := sys[p].delivered[i];
      DeliveredQuorum(g, inst, sys, p, x);
      QuorumSendSeen(g, inst, sys, x);
      SeenShape(g, inst, sys, x);
    }
  }

  lemma PrefixShape(owner: Uuid, m: Bytes)
    requires owner <= m
    ensures |m| >= 16 && m[..16] == owner && m == owner + m[16..]
  {
  }

  lemma SeenShape(g: Peers, inst: Instance, sys: System, m: Bytes)
    requires g.Valid() && Reachable(g, inst, sys) && SendSeen(sys, m)
    ensures |m| >= 16 && m[..16] == inst.owner && m == inst.owner + m[16..]
    ensures inst.owner in g.correct ==> m == inst.owner + inst.content
  {
    ReachableGood(g, inst, sys);
    var r :| r in sys && m in sys[r].sends;
    assert SysOk(g, inst, sys, sys[r]);
    PrefixShape(inst.owner, m);
  }

  // Every correct echo and ready has been counted by every correct node.
  ghost predicate Settled(sys: System) {
    && (forall p, q, m :: p in sys && q in sys && m in sys[q].echoOut ==> q in From(sys[p].echoFrom, m))
    && (forall p, q, m :: p in sys && q in sys && m in sys[q].readyOut ==> q in From(sys[p].readyFrom, m))
  }

  // If every correct node has readied, they all readied m, and all deliver exactly m.
  lemma AllReadyDelivers(g: Peers, inst: Instance, sys: System, p: Uuid, m: Bytes)
    requires g.Valid() && Reachable(g, inst, sys) && Settled(sys) && p in sys && EchoQuorum(g, sys, m)
    requires forall q :: q in sys ==> sys[q].readied
    ensures sys[p].delivered == [m]
  {
    ReachableGood(g, inst, sys);
    forall q | q in g.correct ensures q in From(sys[p].readyFrom, m) {
      assert NodeOk(g, sys[q]);
      var x := sys[q].readyOut[0];
      ReadyQuorum(g, inst, sys, q, x);
      OneEchoQuorum(g, inst, sys, x, m);
    }
    SubsetSize(g.correct, From(sys[p].readyFrom, m));
    CorrectQuorum(g);
    DeliversOnly(g, inst, sys, p, m);
  }

  lemma DeliversOnly(g: Peers, inst: Instance, sys: System, p: Uuid, m: Bytes)
    requires g.Valid() && Reachable(g, inst, sys) && p in sys && EchoQuorum(g, sys, m)
    requires Count(sys[p].readyFrom, m) >= g.n - g.f
    ensures sys[p].delivered == [m]
  {
    ReachableGood(g, inst, sys);
    var s := sys[p];
    assert NodeOk(g, s);
    assert DeliverBacked(s.n, s.f, s.readyFrom, m);
    forall x | x in s.delivered ensures x == m {
      DeliveredQuorum(g, inst, sys, p, x);
      OneEchoQuorum(g, inst, sys, x, m);
    }
    Singleton(s.delivered, m);
  }

  lemma Singleton(q: seq<Bytes>, m: Bytes)
    requires Distinct(q) && m in q && forall x :: x in q ==> x == m
    ensures q == [m]
  {
    assert q[0] in q && q[|q| - 1] in q;
  }

  lemma ReadyAmplified(g: Peers, inst: Instance, sys: System, p: Uuid, m: Bytes, a: set<Uuid>)
    requires g.Valid() && Reachable(g, inst, sys) && Settled(sys) && p in sys
    requires a <= sys.Keys && a <= g.correct && |a| > g.f && forall q :: q in a ==> m in sys[q].readyOut
    ensures sys[p].readied
  {
    ReachableGood(g, inst, sys);
    SubsetSize(a, From(sys[p].readyFrom, m));
    assert NodeOk(g, sys[p]);
    assert ReadyBacked(g.n, g.f, sys[p].echoFrom, sys[p].readyFrom, m);
  }

  // In every settled state, what one correct node delivered, all correct nodes delivered.
  lemma BroadcastTotality(g: Peers, inst: Instance, sys: System, p: Uuid, m: Bytes)
    requires g.Valid() && Reachable(g, inst, sys) && Settled(sys) && p in sys && m in sys[p].delivered
    ensures forall q :: q in sys ==> sys[q].delivered == [m]
  {
    ReachableGood(g, inst, sys);
    assert NodeOk(g, sys[p]) && SysOk(g, inst, sys, sys[p]);
    assert DeliverBacked(g.n, g.f, sys[p].readyFrom, m);
    var a := From(sys[p].readyFrom, m) * g.correct;
    CorrectPart(g, From(sys[p].readyFrom, m));
    forall q | q in sys ensures sys[q].readied {
      ReadyAmplified(g, inst, sys, q, m, a);
    }
    DeliveredQuorum(g, inst, sys, p, m);
    forall q | q in sys ensures sys[q].delivered == [m] {
      AllReadyDelivers(g, inst, sys, q, m);
    }
  }

  // If the owner is correct, every correct echo and ready carries its message, and once its send has
  // reached every correct node, each settled state has all of them delivering it in its name.
  lemma BroadcastValidity(g: Peers, inst: Instance, sys: System)
    requires g.Valid() && Reachable(g, inst, sys) && inst.owner in g.correct
    ensures forall p, m :: p in sys && (m in sys[p].echoOut || m in sys[p].readyOut) ==> m == inst.owner + inst.content
    ensures Settled(sys) && (forall p :: p in sys ==> sys[p].sends != []) ==>
              forall p :: p in sys ==> sys[p].output == [Delivery(inst.owner, inst.content)]
  {
    ReachableGood(g, inst, sys);
    forall p, m | p in sys && (m in sys[p].echoOut || m in sys[p].readyOut) ensures m == inst.owner + inst.content {
      BroadcastIntegrity(g, inst, sys, p, m);
    }
    if Settled(sys) && forall p :: p in sys ==> sys[p].sends != [] {
      OwnerDelivered(g, inst, sys, inst.owner + inst.content);
    }
  }

  lemma OwnerEchoed(g: Peers, inst: Instance, sys: System, m: Bytes)
    requires g.Valid() && Reachable(g, inst, sys) && Settled(sys)
    requires forall p :: p in sys ==> sys[p].sends != []
    requires forall p, x :: p in sys && x in sys[p].echoOut ==> x == m
    ensures forall p :: p in sys ==> Count(sys[p].echoFrom, m) >= g.n - g.f
  {
    ReachableGood(g, inst, sys);
    forall q | q in g.correct ensures m in sys[q].echoOut {
      assert NodeOk(g, sys[q]);
      assert EchoBacked(g.f, sys[q].sends, sys[q].echoFrom, sys[q].readyFrom, sys[q].sends[0]);
      assert sys[q].echoOut[0] in sys[q].echoOut;
    }
    CorrectQuorum(g);
    forall p | p in sys ensures Count(sys[p].echoFrom, m) >= g.n - g.f {
      SubsetSize(g.correct, From(sys[p].echoFrom, m));
    }
  }

  lemma OwnerDelivered(g: Peers, inst: Instance, sys: System, m: Bytes)
    requires g.Valid() && Reachable(g, inst, sys) && Settled(sys) && m == inst.owner + inst.content
    requires forall p :: p in sys ==> sys[p].sends != []
    requires forall p, x :: p in sys && x in sys[p].echoOut ==> x == m
    ensures forall p :: p in sys ==> sys[p].output == [Delivery(inst.owner, inst.content)]
  {
    ReachableGood(g, inst, sys);
    OwnerEchoed(g, inst, sys, m);
    forall p | p in sys ensures sys[p].readied {
      assert NodeOk(g, sys[p]);
      assert ReadyBacked(g.n, g.f, sys[p].echoFrom, sys[p].readyFrom, m);
    }
    forall p | p in sys ensures sys[p].output == [Delivery(inst.owner, inst.content)] {
      assert EchoQuorum(g, sys, m);
      AllReadyDelivers(g, inst, sys, p, m);
      DeliveryOf(g, inst, sys[p], m);
    }
  }

  lemma DeliveryOf(g: Peers, inst: Instance, s: State, m: Bytes)
    requires NodeOk(g, s) && s.delivered == [m] && m == inst.owner + inst.content
    ensures s.output == [Delivery(inst.owner, inst.content)]
  {
    assert m[..16] == inst.owner && m[16..] == inst.content;
  }
}
