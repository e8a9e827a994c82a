/** The binary agreement among a whole group, over unboundedly many rounds: agreement and validity of
    every decision delivered in every run, with any mix of round decisions and adopted ones. */
module AgreementRuns {
  import opened Quorums
  import opened CrusaderNode
  import opened CrusaderInvariants
  import C = CrusaderRuns
  import opened CrusaderSafety
  import opened AgreementNode

  type Coin = nat -> int
  type Nodes = map<Id, Node>

  datatype Event =
    | Propose(est: int)                // the caller's input, to the first round
    | Receive(r: nat, from: Id, msg: Message)
    | Work(r: nat, job: Job)
    | Read(r: nat)
    | Toss(r: nat)
    | Hear(from: Id, d: int)
    | Output(adopted: bool)

  function Bca(x: Node, r: nat): State {
    RoundOf(x, r).bca
  }

  function ExecOf(x: Node, r: nat): Exec {
    RoundOf(x, r).exec
  }

  // The group as seen by round r alone.
  ghost function Project(nodes: Nodes, r: nat): C.System {
    map p | p in nodes :: Bca(nodes[p], r)
  }

  ghost predicate Allowed(g: Group, nodes: Nodes, p: Id, e: Event)
    requires p in nodes
  {
    match e
    case Propose(est) => true
    case Receive(r, from, msg) => C.Backed(g, Project(nodes, r), from, msg)
    case Work(r, job) => Enabled(Bca(nodes[p], r), job)
    case Read(r) => CanRead(nodes[p], r)
    case Toss(r) => ExecOf(nodes[p], r).AwaitCoin?
    case Hear(from, d) => Reported(g, nodes, from, d)
    case Output(adopted) => CanDeliver(nodes[p], adopted)
  }

  ghost function Perform(coin: Coin, g: Group, nodes: Nodes, p: Id, e: Event): Node
    requires p in nodes && Allowed(g, nodes, p, e)
  {
    var x := nodes[p];
    match e
    case Propose(est) => Act(x, 0, Start(est, Bot))
    case Receive(r, from, msg) => Act(x, r, Action.Receive(from, msg))
    case Work(r, job) => Act(x, r, Action.Run(job))
    case Read(r) => ReadDecision(x, r)
    case Toss(r) => SubmitCoin(x, r, coin(r))
    case Hear(from, d) => Report(x, d, from)
    case Output(adopted) => Deliver(x, adopted)
  }

  ghost predicate Step(g: Group, coin: Coin, nodes: Nodes, p: Id, e: Event, nodes': Nodes) {
    p in nodes && Allowed(g, nodes, p, e) && nodes' == nodes[p := Perform(coin, g, nodes, p, e)]
  }

  ghost predicate Next(g: Group, coin: Coin, nodes: Nodes, nodes': Nodes) {
    exists p, e :: Step(g, coin, nodes, p, e, nodes')
  }

  ghost function Initial(g: Group): Nodes {
    map p | p in g.correct :: InitialNode(g.n, g.f)
  }

  ghost predicate IsRun(g: Group, coin: Coin, run: seq<Nodes>) {
    && |run| > 0 && run[0] == Initial(g)
    && forall i :: 0 <= i < |run| - 1 ==> Next(g, coin, run[i], run[i + 1])
  }

  // ---- the invariant

  ghost predicate RoundOk(g: Group, nodes: Nodes, r: nat) {
    C.Inv(g, VariantOf(r), Project(nodes, r))
  }

  ghost predicate RoundsOk(g: Group, nodes: Nodes) {
    forall r: nat :: RoundOk(g, nodes, r)
  }

  // A round that has read a decision read the one its crusader agreement put out, and it finished
  // with the common coin.
  ghost predicate ExecOk(coin: Coin, x: Node, r: nat) {
    match ExecOf(x, r)
    case AwaitDecision => true
    case AwaitCoin(d) => Bca(x, r).decide.output == [d]
    case Finished(d, c) => Bca(x, r).decide.output == [d] && c == coin(r)
  }

  // Every proposal to a later round comes from finishing the round before.
  ghost predicate FollowsFrom(e: Exec, y: Proposal) {
    e.Finished? && y == Proposal(RoundResult(e.dec, e.coin).estimate, e.coin)
  }

  ghost predicate AllFollow(e: Exec, ps: seq<Proposal>) {
    forall y :: y in ps ==> FollowsFrom(e, y)
  }

  ghost predicate ChainOk(x: Node, r: nat) {
    AllFollow(ExecOf(x, r), Bca(x, r + 1).proposals)
  }

  ghost predicate Rounds(coin: Coin, x: Node) {
    (forall r: nat :: ExecOk(coin, x, r)) && (forall r: nat :: ChainOk(x, r))
  }

  ghost predicate DecidedIn(x: Node, r: nat, v: int) {
    IsBit(v) && ExecOf(x, r) == Finished(v, v)
  }

  ghost predicate RoundDecided(nodes: Nodes, v: int) {
    exists p, r: nat :: p in nodes && DecidedIn(nodes[p], r, v)
  }

  ghost predicate GadgetOk(g: Group, t: Gadget) {
    t.f == g.f && forall v :: v in t.deliver ==> IsBit(v) && |t.reports.At(v)| > t.f
  }

  ghost predicate Reported(g: Group, nodes: Nodes, q: Id, v: int) {
    q in g.Members() && (q in g.correct ==> q in nodes && v in nodes[q].delivered)
  }

  ghost predicate ReportsOk(g: Group, nodes: Nodes, t: Gadget) {
    && (forall q :: q in t.reports.zero ==> Reported(g, nodes, q, 0))
    && (forall q :: q in t.reports.one ==> Reported(g, nodes, q, 1))
  }

  ghost predicate Decisions(nodes: Nodes, q: seq<int>) {
    forall v :: v in q ==> RoundDecided(nodes, v)
  }

  ghost predicate NodeOk(g: Group, coin: Coin, nodes: Nodes, x: Node) {
    && x.n == g.n && x.f == g.f && GadgetOk(g, x.gadget) && ReportsOk(g, nodes, x.gadget)
    && Rounds(coin, x) && Decisions(nodes, x.reached) && Decisions(nodes, x.delivered)
  }

  ghost predicate Inv(g: Group, coin: Coin, nodes: Nodes) {
    && g.Valid() && (forall r: nat :: IsBit(coin(r))) && nodes.Keys == g.correct
    && RoundsOk(g, nodes)
    && forall p :: p in nodes ==> NodeOk(g, coin, nodes, nodes[p])
  }

  // ---- consequences of the invariant in one state

  lemma RoundOutput(g: Group, coin: Coin, nodes: Nodes, p: Id, r: nat)
    requires Inv(g, coin, nodes) && p in nodes && ExecOf(nodes[p], r).Finished?
    ensures var e := ExecOf(nodes[p], r);
            && e.dec in Project(nodes, r)[p].decide.output && 0 <= e.dec <= Bot
            && e.coin == coin(r)
  {
    var sys := Project(nodes, r);
    assert ExecOk(coin, nodes[p], r);
    assert RoundOk(g, nodes, r);
    assert C.NodeOk(g, VariantOf(r), sys[p]);
    OutputEvidence(sys[p], ExecOf(nodes[p], r).dec);
  }

  ghost predicate YieldsOnly(e: Exec, v: int) {
    e.Finished? ==> RoundResult(e.dec, e.coin).estimate == v
  }

  // If every finish of round r yields estimate v, every estimate of round r + 1 is v.
  lemma EstimatesFollow(g: Group, coin: Coin, nodes: Nodes, r: nat, v: int)
    requires Inv(g, coin, nodes)
    requires forall p :: p in nodes ==> YieldsOnly(ExecOf(nodes[p], r), v)
    ensures AllEstimate(Project(nodes, r + 1), v)
  {
    var sys := Project(nodes, r + 1);
    forall p, i | p in sys && 0 <= i < |sys[p].proposals|
      ensures sys[p].proposals[i].est == v
    {
      assert ChainOk(nodes[p], r);
      assert FollowsFrom(ExecOf(nodes[p], r), sys[p].proposals[i]);
    }
  }

  lemma UnanimousFinish(g: Group, coin: Coin, nodes: Nodes, r: nat, v: int, p: Id)
    requires Inv(g, coin, nodes) && IsBit(v) && AllEstimate(Project(nodes, r), v)
    requires p in nodes && ExecOf(nodes[p], r).Finished?
    ensures ExecOf(nodes[p], r).dec == v
  {
    RoundOutput(g, coin, nodes, p, r);
    assert RoundOk(g, nodes, r);
    OnlyDecided(g, VariantOf(r), Project(nodes, r), p, v, ExecOf(nodes[p], r).dec);
  }

  lemma UnanimousRound(g: Group, coin: Coin, nodes: Nodes, r: nat, next: nat, v: int)
    requires Inv(g, coin, nodes) && IsBit(v) && AllEstimate(Project(nodes, r), v) && next == r + 1
    ensures AllEstimate(Project(nodes, next), v)
  {
    forall p | p in nodes && ExecOf(nodes[p], r).Finished?
      ensures YieldsOnly(ExecOf(nodes[p], r), v)
    {
      UnanimousFinish(g, coin, nodes, r, v, p);
    }
    EstimatesFollow(g, coin, nodes, r, v);
  }

  lemma DecidingRound(g: Group, coin: Coin, nodes: Nodes, p: Id, r: nat, next: nat, v: int)
    requires Inv(g, coin, nodes) && p in nodes && DecidedIn(nodes[p], r, v) && next == r + 1
    ensures coin(r) == v
    ensures AllEstimate(Project(nodes, next), v)
  {
    RoundOutput(g, coin, nodes, p, r);
    forall q | q in nodes && ExecOf(nodes[q], r).Finished?
      ensures YieldsOnly(ExecOf(nodes[q], r), v)
    {
      RoundOutput(g, coin, nodes, q, r);
      var d := ExecOf(nodes[q], r).dec;
      if d != Bot {
        assert RoundOk(g, nodes, r);
        CrusaderSafety.Agreement(g, VariantOf(r), Project(nodes, r), p, q, v, d);
      }
    }
    EstimatesFollow(g, coin, nodes, r, v);
  }

  lemma UnanimousRounds(g: Group, coin: Coin, nodes: Nodes, v: int, start: nat, r: nat)
    requires Inv(g, coin, nodes) && IsBit(v) && start <= r && AllEstimate(Project(nodes, start), v)
    ensures AllEstimate(Project(nodes, r), v)
  {
    var k := start;
    while k < r
      invariant k <= r && AllEstimate(Project(nodes, k), v)
    {
      var next := k + 1;
      UnanimousRound(g, coin, nodes, k, next, v);
      k := next;
    }
  }

  // The key invariant: once a correct node decides v in round r, every correct proposal in every
  // later round is v.
  lemma Locked(g: Group, coin: Coin, nodes: Nodes, p: Id, r: nat, v: int, r': nat)
    requires Inv(g, coin, nodes) && p in nodes && DecidedIn(nodes[p], r, v) && r < r'
    ensures AllEstimate(Project(nodes, r'), v)
  {
    var next := r + 1;
    DecidingRound(g, coin, nodes, p, r, next, v);
    UnanimousRounds(g, coin, nodes, v, next, r');
  }

  lemma OneRoundDecision(g: Group, coin: Coin, nodes: Nodes, p: Id, q: Id, r: nat, r': nat, v: int, w: int)
    requires Inv(g, coin, nodes) && p in nodes && q in nodes && r <= r'
    requires DecidedIn(nodes[p], r, v) && DecidedIn(nodes[q], r', w)
    ensures v == w
  {
    if r == r' {
      DecidingRound(g, coin, nodes, p, r, r + 1, v);
      DecidingRound(g, coin, nodes, q, r, r + 1, w);
    } else {
      Locked(g, coin, nodes, p, r, v, r');
      UnanimousFinish(g, coin, nodes, r', v, q);
    }
  }

  lemma SameDecision(g: Group, coin: Coin, nodes: Nodes, v: int, w: int)
    requires Inv(g, coin, nodes) && RoundDecided(nodes, v) && RoundDecided(nodes, w)
    ensures v == w
  {
    var p, r: nat :| p in nodes && DecidedIn(nodes[p], r, v);
    var q, r': nat :| q in nodes && DecidedIn(nodes[q], r', w);
    if r <= r' {
      OneRoundDecision(g, coin, nodes, p, q, r, r', v, w);
    } else {
      OneRoundDecision(g, coin, nodes, q, p, r', r, w, v);
    }
  }

  lemma UnanimousDecision(g: Group, coin: Coin, nodes: Nodes, v: int, w: int)
    requires Inv(g, coin, nodes) && IsBit(v) && AllEstimate(Project(nodes, 0), v) && RoundDecided(nodes, w)
    ensures w == v
  {
    var p, r: nat :| p in nodes && DecidedIn(nodes[p], r, w);
    UnanimousRounds(g, coin, nodes, v, 0, r);
    UnanimousFinish(g, coin, nodes, r, v, p);
  }

  // ---- the rounds a step leaves alone, and the one it moves

  ghost predicate SameBcas(x: Node, x': Node) {
    forall r: nat :: Bca(x', r) == Bca(x, r)
  }

  lemma RoundsUnmoved(g: Group, nodes: Nodes, p: Id, x': Node)
    requires RoundsOk(g, nodes) && p in nodes && SameBcas(nodes[p], x')
    ensures RoundsOk(g, nodes[p := x'])
  {
    var nodes' := nodes[p := x'];
    forall r: nat ensures RoundOk(g, nodes', r) {
      assert RoundOk(g, nodes, r);
      assert Project(nodes', r) == Project(nodes, r);
    }
  }

  lemma ProjectMoved(nodes: Nodes, p: Id, r: nat, a: Action, k: nat)
    requires p in nodes && Can(Bca(nodes[p], r), a)
    ensures var nodes' := nodes[p := Act(nodes[p], r, a)];
            Project(nodes', k) == if k == r then Project(nodes, r)[p := Apply(Bca(nodes[p], r), a)] else Project(nodes, k)
  {
  }

  lemma RoundMoved(g: Group, nodes: Nodes, p: Id, r: nat, a: Action)
    requires RoundsOk(g, nodes) && p in nodes && Can(Bca(nodes[p], r), a) && C.Authentic(g, Project(nodes, r), a)
    ensures RoundsOk(g, nodes[p := Act(nodes[p], r, a)])
  {
    var nodes' := nodes[p := Act(nodes[p], r, a)];
    forall k: nat ensures RoundOk(g, nodes', k) {
      assert RoundOk(g, nodes, k);
      ProjectMoved(nodes, p, r, a, k);
      if k == r {
        C.StepInv(g, VariantOf(r), Project(nodes, r), p, a, Project(nodes', r));
      }
    }
  }

  lemma TossMoves(coin: Coin, x: Node, r: nat, c: int)
    requires ExecOf(x, r).AwaitCoin? && IsBit(c)
    ensures var y := WithRound(x, r, RoundOf(x, r).(exec := Finished(ExecOf(x, r).dec, c)));
            var res := RoundResult(ExecOf(x, r).dec, c);
            && SameBcas(x, y)
            && (SubmitCoin(x, r, c) == Act(y, r + 1, Start(res.estimate, c))
                || (res.decided && SameBcas(x, SubmitCoin(x, r, c))))
  {
  }

  lemma RoundsKept(g: Group, coin: Coin, nodes: Nodes, p: Id, e: Event, nodes': Nodes)
    requires RoundsOk(g, nodes) && Step(g, coin, nodes, p, e, nodes') && (forall r: nat :: IsBit(coin(r)))
    ensures RoundsOk(g, nodes')
  {
    var x := nodes[p];
    match e
    case Propose(est) => RoundMoved(g, nodes, p, 0, Start(est, Bot));
    case Receive(r, from, msg) => RoundMoved(g, nodes, p, r, Action.Receive(from, msg));
    case Work(r, job) => RoundMoved(g, nodes, p, r, Action.Run(job));
    case Read(r) => RoundsUnmoved(g, nodes, p, nodes'[p]);
    case Toss(r) =>
      var y := WithRound(x, r, RoundOf(x, r).(exec := Finished(ExecOf(x, r).dec, coin(r))));
      TossMoves(coin, x, r, coin(r));
      if SameBcas(x, nodes'[p]) {
        RoundsUnmoved(g, nodes, p, nodes'[p]);
      } else {
        RoundsUnmoved(g, nodes, p, y);
        RoundMoved(g, nodes[p := y], p, r + 1, Start(RoundResult(ExecOf(x, r).dec, coin(r)).estimate, coin(r)));
        assert nodes' == nodes[p := y][p := nodes'[p]];
      }
    case Hear(from, d) => RoundsUnmoved(g, nodes, p, nodes'[p]);
    case Output(adopted) => RoundsUnmoved(g, nodes, p, nodes'[p]);
  }

  // ---- facts about other nodes only grow

  ghost predicate Grows(nodes: Nodes, nodes': Nodes) {
    && nodes.Keys == nodes'.Keys
    && (forall q, v :: q in nodes && v in nodes[q].delivered ==> v in nodes'[q].delivered)
    && (forall v :: RoundDecided(nodes, v) ==> RoundDecided(nodes', v))
  }

  lemma DecidedStays(coin: Coin, g: Group, nodes: Nodes, p: Id, e: Event, r: nat, v: int)
    requires p in nodes && Allowed(g, nodes, p, e) && DecidedIn(nodes[p], r, v)
    ensures DecidedIn(Perform(coin, g, nodes, p, e), r, v)
  {
  }

  lemma StepGrows(g: Group, coin: Coin, nodes: Nodes, p: Id, e: Event, nodes': Nodes)
    requires Step(g, coin, nodes, p, e, nodes')
    ensures Grows(nodes, nodes')
  {
    forall v | RoundDecided(nodes, v) ensures RoundDecided(nodes', v) {
      var q, r: nat :| q in nodes && DecidedIn(nodes[q], r, v);
      if q == p {
        DecidedStays(coin, g, nodes, p, e, r, v);
      }
      assert DecidedIn(nodes'[q], r, v);
    }
  }

  lemma ReportsGrow(g: Group, nodes: Nodes, nodes': Nodes, t: Gadget)
    requires ReportsOk(g, nodes, t) && Grows(nodes, nodes')
    ensures ReportsOk(g, nodes', t)
  {
  }

  lemma NodeGrows(g: Group, coin: Coin, nodes: Nodes, nodes': Nodes, x: Node)
    requires NodeOk(g, coin, nodes, x) && Grows(nodes, nodes')
    ensures NodeOk(g, coin, nodes', x)
  {
    ReportsGrow(g, nodes, nodes', x.gadget);
  }

  // ---- the acting node

  lemma OutputFixed(s: State, a: Action)
    requires LocalInv(s) && Can(s, a)
    ensures s.decide.output != [] ==> Apply(s, a).decide.output == s.decide.output
    ensures !a.Start? ==> Apply(s, a).proposals == s.proposals
  {
    ApplyInv(s, a);
    C.ActionFrame(s, a);
  }

  lemma ActRounds(coin: Coin, x: Node, r: nat, a: Action)
    requires Rounds(coin, x) && LocalInv(Bca(x, r)) && Can(Bca(x, r), a)
    requires a.Start? ==> r == 0
    ensures Rounds(coin, Act(x, r, a))
  {
    var x' := Act(x, r, a);
    OutputFixed(Bca(x, r), a);
    forall k: nat ensures ExecOk(coin, x', k) {
      assert ExecOk(coin, x, k);
    }
    forall k: nat ensures ChainOk(x', k) {
      assert ChainOk(x, k);
    }
  }

  lemma ReadRounds(coin: Coin, x: Node, r: nat)
    requires Rounds(coin, x) && LocalInv(Bca(x, r)) && CanRead(x, r)
    ensures Rounds(coin, ReadDecision(x, r))
  {
    var x' := ReadDecision(x, r);
    OutputEvidence(Bca(x, r), Bca(x, r).decide.output[0]);
    forall k: nat ensures ExecOk(coin, x', k) {
      assert ExecOk(coin, x, k);
    }
    forall k: nat ensures ChainOk(x', k) {
      assert ChainOk(x, k);
    }
  }

  lemma StartAppends(s: State, est: int, c: int)
    ensures var t := CrusaderNode.Propose(s, est, c);
            && (t.proposals == s.proposals || t.proposals == s.proposals + [Proposal(est, c)])
            && t.decide == s.decide
  {
  }

  // What submitCoin does to each round: it closes round r, and at most one proposal enters round r + 1.
  lemma TossShape(x: Node, r: nat, c: int)
    requires ExecOf(x, r).AwaitCoin? && IsBit(c)
    ensures var x' := SubmitCoin(x, r, c);
            var y := Proposal(RoundResult(ExecOf(x, r).dec, c).estimate, c);
            && (forall k: nat :: ExecOf(x', k) == if k == r then Finished(ExecOf(x, r).dec, c) else ExecOf(x, k))
            && (forall k: nat :: Bca(x', k).decide == Bca(x, k).decide)
            && (forall k: nat :: k != r + 1 ==> Bca(x', k).proposals == Bca(x, k).proposals)
            && (Bca(x', r + 1).proposals == Bca(x, r + 1).proposals || Bca(x', r + 1).proposals == Bca(x, r + 1).proposals + [y])
  {
    var y := WithRound(x, r, RoundOf(x, r).(exec := Finished(ExecOf(x, r).dec, c)));
    var res := RoundResult(ExecOf(x, r).dec, c);
    FinishShape(x, r, c, y);
    if !(res.decided && !x.hasDecided) {
      StartAppends(Bca(y, r + 1), res.estimate, c);
      ActShape(y, r + 1, res.estimate, c);
    }
  }

  lemma FinishShape(x: Node, r: nat, c: int, y: Node)
    requires ExecOf(x, r).AwaitCoin? && y == WithRound(x, r, RoundOf(x, r).(exec := Finished(ExecOf(x, r).dec, c)))
    ensures SameBcas(x, y)
    ensures forall k: nat :: ExecOf(y, k) == if k == r then Finished(ExecOf(x, r).dec, c) else ExecOf(x, k)
  {
  }

  lemma ActShape(y: Node, next: nat, est: int, c: int)
    ensures var x' := Act(y, next, Start(est, c));
            && (forall k: nat :: ExecOf(x', k) == ExecOf(y, k))
            && (forall k: nat :: Bca(x', k) == if k == next then CrusaderNode.Propose(Bca(y, next), est, c) else Bca(y, k))
  {
  }

  lemma TossReached(x: Node, r: nat, c: int)
    requires ExecOf(x, r).AwaitCoin? && IsBit(c)
    ensures var x' := SubmitCoin(x, r, c);
            && x'.delivered == x.delivered
            && forall v :: v in x'.reached ==> v in x.reached || DecidedIn(x', r, v)
  {
  }

  lemma TossRounds(coin: Coin, x: Node, r: nat)
    requires Rounds(coin, x) && ExecOf(x, r).AwaitCoin? && IsBit(coin(r))
    ensures Rounds(coin, SubmitCoin(x, r, coin(r)))
  {
    var x' := SubmitCoin(x, r, coin(r));
    TossShape(x, r, coin(r));
    forall k: nat ensures ExecOk(coin, x', k) {
      assert ExecOk(coin, x, k);
    }
    forall k: nat ensures ChainOk(x', k) {
      assert ChainOk(x, k);
    }
  }

  lemma HearReports(g: Group, nodes: Nodes, t: Gadget, d: int, from: Id)
    requires ReportsOk(g, nodes, t) && Reported(g, nodes, from, d)
    ensures ReportsOk(g, nodes, SubmitDecision(t, d, from))
  {
  }

  lemma HearOk(g: Group, nodes: Nodes, t: Gadget, d: int, from: Id)
    requires GadgetOk(g, t) && ReportsOk(g, nodes, t) && Reported(g, nodes, from, d)
    ensures GadgetOk(g, SubmitDecision(t, d, from)) && ReportsOk(g, nodes, SubmitDecision(t, d, from))
  {
    HearReports(g, nodes, t, d, from);
    Appended(t.deliver, d);
  }

  // An adopted decision was delivered by a correct node.
  lemma Adopted(g: Group, nodes: Nodes, t: Gadget, v: int) returns (q: Id)
    requires g.Valid() && GadgetOk(g, t) && ReportsOk(g, nodes, t) && v in t.deliver
    ensures q in nodes && v in nodes[q].delivered
  {
    assert t.reports.At(v) <= g.Members();
    q := SomeCorrect(g, t.reports.At(v));
    assert Reported(g, nodes, q, v);
  }

  lemma LocalRound(g: Group, coin: Coin, nodes: Nodes, p: Id, r: nat)
    requires Inv(g, coin, nodes) && p in nodes
    ensures LocalInv(Bca(nodes[p], r))
  {
    assert RoundOk(g, nodes, r);
    assert C.NodeOk(g, VariantOf(r), Project(nodes, r)[p]);
  }

  lemma SameRounds(coin: Coin, x: Node, x': Node)
    requires Rounds(coin, x) && x'.rounds == x.rounds && x'.n == x.n && x'.f == x.f
    ensures Rounds(coin, x')
  {
    forall k: nat ensures ExecOk(coin, x', k) {
      assert ExecOk(coin, x, k);
    }
    forall k: nat ensures ChainOk(x', k) {
      assert ChainOk(x, k);
    }
  }

  lemma ActingRounds(g: Group, coin: Coin, nodes: Nodes, p: Id, e: Event, nodes': Nodes)
    requires Inv(g, coin, nodes) && Step(g, coin, nodes, p, e, nodes')
    ensures Rounds(coin, nodes'[p])
  {
    var x := nodes[p];
    assert NodeOk(g, coin, nodes, x);
    match e
    case Propose(est) =>
      LocalRound(g, coin, nodes, p, 0);
      ActRounds(coin, x, 0, Start(est, Bot));
    case Receive(r, from, msg) =>
      LocalRound(g, coin, nodes, p, r);
      ActRounds(coin, x, r, Action.Receive(from, msg));
    case Work(r, job) =>
      LocalRound(g, coin, nodes, p, r);
      ActRounds(coin, x, r, Action.Run(job));
    case Read(r) =>
      LocalRound(g, coin, nodes, p, r);
      ReadRounds(coin, x, r);
    case Toss(r) => TossRounds(coin, x, r);
    case Hear(from, d) => SameRounds(coin, x, nodes'[p]);
    case Output(adopted) => SameRounds(coin, x, nodes'[p]);
  }

  ghost predicate GadgetFacts(g: Group, nodes: Nodes, t: Gadget) {
    GadgetOk(g, t) && ReportsOk(g, nodes, t)
  }

  lemma ActingGadget(g: Group, coin: Coin, nodes: Nodes, p: Id, e: Event, nodes': Nodes)
    requires p in nodes && Step(g, coin, nodes, p, e, nodes') && GadgetFacts(g, nodes, nodes[p].gadget)
    ensures GadgetFacts(g, nodes, nodes'[p].gadget)
  {
    if e.Hear? {
      HearOk(g, nodes, nodes[p].gadget, e.d, e.from);
    }
  }

  // Every decision the acting node has reached or delivered was decided in a round, by itself just
  // now or by a correct node before.
  lemma ActingDecisions(g: Group, coin: Coin, nodes: Nodes, p: Id, e: Event, nodes': Nodes)
    requires Inv(g, coin, nodes) && Step(g, coin, nodes, p, e, nodes') && Grows(nodes, nodes')
    ensures Decisions(nodes', nodes'[p].reached) && Decisions(nodes', nodes'[p].delivered)
  {
    var x := nodes[p];
    assert NodeOk(g, coin, nodes, x);
    match e
    case Toss(r) =>
      assert ExecOk(coin, x, r);
      TossReached(x, r, coin(r));
    case Output(true) =>
      var q := Adopted(g, nodes, x.gadget, x.gadget.deliver[0]);
      assert NodeOk(g, coin, nodes, nodes[q]);
    case _ =>
  }

  lemma ActingNode(g: Group, coin: Coin, nodes: Nodes, p: Id, e: Event, nodes': Nodes)
    requires Inv(g, coin, nodes) && Step(g, coin, nodes, p, e, nodes') && Grows(nodes, nodes')
    ensures NodeOk(g, coin, nodes', nodes'[p])
  {
    assert NodeOk(g, coin, nodes, nodes[p]);
    ActingRounds(g, coin, nodes, p, e, nodes');
    ActingGadget(g, coin, nodes, p, e, nodes');
    ReportsGrow(g, nodes, nodes', nodes'[p].gadget);
    ActingDecisions(g, coin, nodes, p, e, nodes');
    SizesKept(coin, g, nodes, p, e);
  }

  lemma SizesKept(coin: Coin, g: Group, nodes: Nodes, p: Id, e: Event)
    requires p in nodes && Allowed(g, nodes, p, e)
    ensures var x := Perform(coin, g, nodes, p, e); x.n == nodes[p].n && x.f == nodes[p].f
  {
  }

  lemma StepInv(g: Group, coin: Coin, nodes: Nodes, p: Id, e: Event, nodes': Nodes)
    requires Inv(g, coin, nodes) && Step(g, coin, nodes, p, e, nodes')
    ensures Inv(g, coin, nodes')
  {
    RoundsKept(g, coin, nodes, p, e, nodes');
    StepGrows(g, coin, nodes, p, e, nodes');
    ActingNode(g, coin, nodes, p, e, nodes');
    forall q | q in nodes' ensures NodeOk(g, coin, nodes', nodes'[q]) {
      if q != p {
        NodeGrows(g, coin, nodes, nodes', nodes[q]);
      }
    }
  }

  lemma InitialInv(g: Group, coin: Coin)
    requires g.Valid() && (forall r: nat :: IsBit(coin(r)))
    ensures Inv(g, coin, Initial(g))
  {
    forall r: nat ensures RoundOk(g, Initial(g), r) {
      assert Project(Initial(g), r) == C.Initial(g, VariantOf(r));
      C.InitialInv(g, VariantOf(r));
    }
  }

  lemma {:induction false} RunInv(g: Group, coin: Coin, run: seq<Nodes>, i: nat)
    requires g.Valid() && (forall r: nat :: IsBit(coin(r))) && IsRun(g, coin, run) && i < |run|
    ensures Inv(g, coin, run[i])
    decreases i
  {
    if i == 0 {
      InitialInv(g, coin);
    } else {
      var j := i - 1;
      RunInv(g, coin, run, j);
      assert Next(g, coin, run[j], run[j + 1]);
      var p, e :| Step(g, coin, run[j], p, e, run[j + 1]);
      StepInv(g, coin, run[j], p, e, run[j + 1]);
    }
  }

  // ---- the theorems, over every run

  lemma NextGrows(g: Group, coin: Coin, nodes: Nodes, nodes': Nodes)
    requires Next(g, coin, nodes, nodes')
    ensures Grows(nodes, nodes')
  {
    var q, e :| Step(g, coin, nodes, q, e, nodes');
    StepGrows(g, coin, nodes, q, e, nodes');
  }

  lemma {:induction false} DeliveredStays(g: Group, coin: Coin, run: seq<Nodes>, i: nat, j: nat, p: Id, v: int)
    requires IsRun(g, coin, run) && i <= j < |run| && p in run[i] && v in run[i][p].delivered
    ensures p in run[j] && v in run[j][p].delivered
    decreases j
  {
    if i < j {
      var k := j - 1;
      DeliveredStays(g, coin, run, i, k, p, v);
      NextGrows(g, coin, run[k], run[k + 1]);
    }
  }

  // No two correct nodes deliver different decisions, at whatever points of the run.
  lemma BinaryAgreement(g: Group, coin: Coin, run: seq<Nodes>, i: nat, j: nat, p: Id, q: Id, v: int, w: int)
    requires g.Valid() && (forall r: nat :: IsBit(coin(r))) && IsRun(g, coin, run) && i <= j < |run|
    requires p in run[i] && v in run[i][p].delivered
    requires q in run[j] && w in run[j][q].delivered
    ensures v == w && IsBit(v)
  {
    RunInv(g, coin, run, j);
    DeliveredStays(g, coin, run, i, j, p, v);
    SameDecision(g, coin, run[j], v, w);
  }

  // If every correct proposal to the first round is v, so is every correct estimate of every round
  // and every delivered decision.
  lemma BinaryValidity(g: Group, coin: Coin, run: seq<Nodes>, i: nat, v: int)
    requires g.Valid() && (forall r: nat :: IsBit(coin(r))) && IsRun(g, coin, run) && i < |run|
    requires IsBit(v) && AllEstimate(Project(run[i], 0), v)
    ensures forall r: nat :: AllEstimate(Project(run[i], r), v)
    ensures forall p, w :: p in run[i] && w in run[i][p].delivered ==> w == v
  {
    RunInv(g, coin, run, i);
    forall r: nat ensures AllEstimate(Project(run[i], r), v) {
      UnanimousRounds(g, coin, run[i], v, 0, r);
    }
    forall p, w | p in run[i] && w in run[i][p].delivered ensures w == v {
      assert NodeOk(g, coin, run[i], run[i][p]);
      UnanimousDecision(g, coin, run[i], v, w);
    }
  }

  // Hence a delivered decision was proposed by some correct node.
  lemma DecisionWasProposed(g: Group, coin: Coin, run: seq<Nodes>, i: nat, p: Id, v: int)
    requires g.Valid() && (forall r: nat :: IsBit(coin(r))) && IsRun(g, coin, run) && i < |run|
    requires p in run[i] && v in run[i][p].delivered
    ensures C.Proposed(Project(run[i], 0), v)
  {
    RunInv(g, coin, run, i);
    assert NodeOk(g, coin, run[i], run[i][p]);
    var sys := Project(run[i], 0);
    if !C.Proposed(sys, v) {
      FirstEstimates(g, coin, run[i], v);
      UnanimousDecision(g, coin, run[i], 1 - v, v);
    }
  }

  lemma FirstEstimates(g: Group, coin: Coin, nodes: Nodes, v: int)
    requires Inv(g, coin, nodes) && IsBit(v) && !C.Proposed(Project(nodes, 0), v)
    ensures AllEstimate(Project(nodes, 0), 1 - v)
  {
    var sys := Project(nodes, 0);
    forall p, i | p in sys && 0 <= i < |sys[p].proposals| ensures sys[p].proposals[i].est == 1 - v {
      assert RoundOk(g, nodes, 0);
      assert C.NodeOk(g, Internal, sys[p]);
      assert HasEstimate(sys[p].proposals, sys[p].proposals[i].est);
    }
  }
}
