/** The rounds of a binary agreement as crusader agreements in their own right: every stretch of a run is,
    seen by one round, a stretch of that round's crusader agreement. So what is proved of a crusader agreement
    over time holds of the rounds: binding gives the first coin its chance, and a later round blocks only in
    one way. */
module AgreementRounds {
  import opened Quorums
  import opened CrusaderNode
  import opened CrusaderInvariants
  import C = CrusaderRuns
  import opened CrusaderSafety
  import opened CrusaderBlocking
  import opened AgreementNode
  import opened AgreementRuns

  // ---- projection

  lemma ActProjects(g: Group, nodes: Nodes, p: Id, k: nat, a: Action, r: nat)
    requires p in nodes && Can(Bca(nodes[p], k), a) && C.Authentic(g, Project(nodes, k), a)
    ensures Moves(g, nodes, nodes[p := Act(nodes[p], k, a)], r)
  {
    ProjectMoved(nodes, p, k, a, r);
    if k == r {
      assert C.Step(g, Project(nodes, r), p, a, Project(nodes[p := Act(nodes[p], k, a)], r));
    }
  }

  // Round r stays as it is, or makes a step of its own.
  ghost predicate Moves(g: Group, nodes: Nodes, nodes': Nodes, r: nat) {
    Project(nodes', r) == Project(nodes, r) || C.Next(g, Project(nodes, r), Project(nodes', r))
  }

  lemma Unmoved(g: Group, nodes: Nodes, p: Id, x': Node, r: nat)
    requires p in nodes && SameBcas(nodes[p], x')
    ensures Project(nodes[p := x'], r) == Project(nodes, r)
  {
  }

  lemma StepProjects(g: Group, coin: Coin, nodes: Nodes, p: Id, e: Event, nodes': Nodes, r: nat)
    requires Step(g, coin, nodes, p, e, nodes') && (forall k: nat :: IsBit(coin(k)))
    ensures Moves(g, nodes, nodes', r)
  {
    var x := nodes[p];
    match e
    case Propose(est) => ActProjects(g, nodes, p, 0, Start(est, Bot), r);
    case Receive(k, from, msg) => ActProjects(g, nodes, p, k, Action.Receive(from, msg), r);
    case Work(k, job) => ActProjects(g, nodes, p, k, Action.Run(job), r);
    case Read(k) => Unmoved(g, nodes, p, nodes'[p], r);
    case Toss(k) => TossProjects(g, coin, nodes, p, k, r);
    case Hear(from, d) => Unmoved(g, nodes, p, nodes'[p], r);
    case Output(adopted) => Unmoved(g, nodes, p, nodes'[p], r);
  }

  lemma TossProjects(g: Group, coin: Coin, nodes: Nodes, p: Id, k: nat, r: nat)
    requires p in nodes && ExecOf(nodes[p], k).AwaitCoin? && IsBit(coin(k))
    ensures Moves(g, nodes, nodes[p := SubmitCoin(nodes[p], k, coin(k))], r)
  {
    var x, x' := nodes[p], SubmitCoin(nodes[p], k, coin(k));
    var y := WithRound(x, k, RoundOf(x, k).(exec := Finished(ExecOf(x, k).dec, coin(k))));
    TossMoves(coin, x, k, coin(k));
    if SameBcas(x, x') {
      Unmoved(g, nodes, p, x', r);
    } else {
      Unmoved(g, nodes, p, y, r);
      ActProjects(g, nodes[p := y], p, k + 1, Start(RoundResult(ExecOf(x, k).dec, coin(k)).estimate, coin(k)), r);
      assert nodes[p := y][p := x'] == nodes[p := x'];
    }
  }

  lemma NextProjects(g: Group, coin: Coin, nodes: Nodes, nodes': Nodes, r: nat)
    requires Next(g, coin, nodes, nodes') && (forall k: nat :: IsBit(coin(k)))
    ensures Moves(g, nodes, nodes', r)
  {
    var p, e :| Step(g, coin, nodes, p, e, nodes');
    StepProjects(g, coin, nodes, p, e, nodes', r);
  }

  lemma {:induction false} ProjectLeads(g: Group, coin: Coin, run: seq<Nodes>, i: nat, j: nat, r: nat)
    requires IsRun(g, coin, run) && (forall k: nat :: IsBit(coin(k))) && i <= j < |run|
    ensures C.Leads(g, Project(run[i], r), Project(run[j], r))
    decreases j
  {
    if i == j {
      C.LeadsToSelf(g, Project(run[i], r));
    } else {
      var k := j - 1;
      ProjectLeads(g, coin, run, i, k, r);
      assert Next(g, coin, run[k], run[k + 1]);
      NextProjects(g, coin, run[k], run[j], r);
      if Project(run[j], r) != Project(run[k], r) {
        C.LeadsOn(g, Project(run[i], r), Project(run[k], r), Project(run[j], r));
      }
    }
  }

  /** At every point of a run, each round is in a reachable state of a crusader agreement. */
  lemma ProjectReachable(g: Group, coin: Coin, run: seq<Nodes>, i: nat, r: nat)
    requires IsRun(g, coin, run) && (forall k: nat :: IsBit(coin(k))) && i < |run|
    ensures C.Reachable(g, VariantOf(r), Project(run[i], r))
  {
    ProjectLeads(g, coin, run, 0, i, r);
    assert Project(run[0], r) == C.Initial(g, VariantOf(r));
  }

  // ---- what binding is for

  ghost predicate NobodyDecides(sys: C.System, e: int) {
    forall q :: q in sys ==> e !in sys[q].decide.output
  }

  lemma YieldsCoin(g: Group, coin: Coin, nodes: Nodes, r: nat, e: int, q: Id)
    requires Inv(g, coin, nodes) && IsBit(e) && coin(r) == 1 - e && q in nodes
    requires e !in Project(nodes, r)[q].decide.output
    ensures YieldsOnly(ExecOf(nodes[q], r), coin(r))
  {
    if ExecOf(nodes[q], r).Finished? {
      RoundOutput(g, coin, nodes, q, r);
    }
  }

  // If nobody decides e in a round and its coin is the other value, the next estimates are the coin.
  lemma FinishesWithCoin(g: Group, coin: Coin, nodes: Nodes, r: nat, next: nat, e: int)
    requires Inv(g, coin, nodes) && IsBit(e) && coin(r) == 1 - e && NobodyDecides(Project(nodes, r), e) && next == r + 1
    ensures AllEstimate(Project(nodes, next), coin(r))
  {
    forall q | q in nodes ensures YieldsOnly(ExecOf(nodes[q], r), coin(r)) {
      assert q in Project(nodes, r);
      YieldsCoin(g, coin, nodes, r, e, q);
    }
    EstimatesFollow(g, coin, nodes, r, coin(r));
  }

  /** Once some correct node has a decision of the first round, even bot, one value is fixed, whatever faulty
      nodes send later; a first coin that is the other value then settles the agreement on the coin: every
      correct estimate of every later round is the coin, at every later point of the run. */
  lemma FirstCoinSettles(g: Group, coin: Coin, run: seq<Nodes>, i: nat, j: nat, p: Id, d: int, r: nat)
    requires g.Valid() && (forall k: nat :: IsBit(coin(k))) && IsRun(g, coin, run) && i <= j < |run| && r > 0
    requires p in run[i] && d in Bca(run[i][p], 0).decide.output
    requires coin(0) != Excluded(Project(run[i], 0))
    ensures AllEstimate(Project(run[j], r), coin(0))
  {
    var sys := Project(run[i], 0);
    ProjectReachable(g, coin, run, i, 0);
    ProjectLeads(g, coin, run, i, j, 0);
    Binding(g, sys, p, d);
    RunInv(g, coin, run, j);
    FinishesWithCoin(g, coin, run[j], 0, 1, Excluded(sys));
    UnanimousRounds(g, coin, run[j], coin(0), 1, r);
  }

  // So any decision delivered at any later point, by anyone, is the first coin.
  lemma FirstCoinDecided(g: Group, coin: Coin, run: seq<Nodes>, i: nat, j: nat, p: Id, d: int, q: Id, v: int)
    requires g.Valid() && (forall k: nat :: IsBit(coin(k))) && IsRun(g, coin, run) && i <= j < |run|
    requires p in run[i] && d in Bca(run[i][p], 0).decide.output
    requires coin(0) != Excluded(Project(run[i], 0))
    requires q in run[j] && v in run[j][q].delivered
    ensures v == coin(0)
  {
    RunInv(g, coin, run, j);
    assert NodeOk(g, coin, run[j], run[j][q]);
    var x, r: nat :| x in run[j] && DecidedIn(run[j][x], r, v);
    if r == 0 {
      RoundOutput(g, coin, run[j], x, 0);
    } else {
      FirstCoinSettles(g, coin, run, i, j, p, d, r);
      UnanimousFinish(g, coin, run[j], r, coin(0), x);
    }
  }

  // ---- when a later round blocks

  // A later round is proposed to at most once, when the one before is finished.
  ghost predicate ProposedOnce(x: Node, r: nat) {
    |Bca(x, r + 1).proposals| <= if ExecOf(x, r).Finished? then 1 else 0
  }

  ghost predicate AllProposedOnce(x: Node) {
    forall r: nat :: ProposedOnce(x, r)
  }

  lemma ActProposals(x: Node, k: nat, a: Action)
    requires Can(Bca(x, k), a) && AllProposedOnce(x) && (a.Start? ==> k == 0)
    ensures AllProposedOnce(Act(x, k, a))
  {
    var x' := Act(x, k, a);
    forall r: nat ensures ProposedOnce(x', r) {
      assert ProposedOnce(x, r);
      if k == r + 1 {
        ProposalsKept(Bca(x, k), a);
      }
    }
  }

  lemma ProposalsKept(s: State, a: Action)
    requires Can(s, a) && !a.Start?
    ensures Apply(s, a).proposals == s.proposals
  {
    match a
    case Receive(from, msg) => C.HandleFrame(s, from, msg);
    case Run(job) => C.WorkFrame(s, job);
  }

  lemma TossProposals(x: Node, k: nat, c: int)
    requires ExecOf(x, k).AwaitCoin? && IsBit(c) && AllProposedOnce(x)
    ensures AllProposedOnce(SubmitCoin(x, k, c))
  {
    var x' := SubmitCoin(x, k, c);
    TossShape(x, k, c);
    forall r: nat ensures ProposedOnce(x', r) {
      assert ProposedOnce(x, r);
    }
  }

  lemma SameProposals(x: Node, x': Node)
    requires AllProposedOnce(x) && SameBcas(x, x')
    requires forall r: nat :: ExecOf(x, r).Finished? ==> ExecOf(x', r).Finished?
    ensures AllProposedOnce(x')
  {
    forall r: nat ensures ProposedOnce(x', r) {
      assert ProposedOnce(x, r);
    }
  }

  lemma StepProposals(g: Group, coin: Coin, nodes: Nodes, p: Id, e: Event)
    requires p in nodes && Allowed(g, nodes, p, e) && AllProposedOnce(nodes[p]) && (forall k: nat :: IsBit(coin(k)))
    ensures AllProposedOnce(Perform(coin, g, nodes, p, e))
  {
    var x := nodes[p];
    match e
    case Propose(est) => ActProposals(x, 0, Start(est, Bot));
    case Receive(k, from, msg) => ActProposals(x, k, Action.Receive(from, msg));
    case Work(k, job) => ActProposals(x, k, Action.Run(job));
    case Toss(k) => TossProposals(x, k, coin(k));
    case Read(k) => SameProposals(x, ReadDecision(x, k));
    case Hear(from, d) => SameProposals(x, Report(x, d, from));
    case Output(adopted) => SameProposals(x, Deliver(x, adopted));
  }

  lemma {:induction false} RunProposals(g: Group, coin: Coin, run: seq<Nodes>, i: nat)
    requires IsRun(g, coin, run) && (forall k: nat :: IsBit(coin(k))) && i < |run|
    ensures forall p :: p in run[i] ==> AllProposedOnce(run[i][p])
  {
    if i > 0 {
      var k := i - 1;
      RunProposals(g, coin, run, k);
      assert Next(g, coin, run[k], run[k + 1]);
      var p, e :| Step(g, coin, run[k], p, e, run[i]);
      StepProposals(g, coin, run[k], p, e);
    }
  }

  // The node proposed to this round by fast forward.
  ghost predicate FastForwarded(s: State) {
    exists v :: s.proposals == [Proposal(v, v)]
  }

  ghost predicate SawVoteQuorum(s: State) {
    |s.vote.from.zero| >= s.Quorum() || |s.vote.from.one| >= s.Quorum()
  }

  lemma OneForward(s: State)
    requires |s.proposals| <= 1
    ensures Forwards(s.proposals) == if FastForwarded(s) then 1 else 0
  {
    if |s.proposals| == 1 {
      var y := s.proposals[0];
      assert s.proposals == [y] && s.proposals[..0] == [];
      assert y == Proposal(y.est, y.est) ==> s.proposals == [Proposal(y.est, y.est)];
      if FastForwarded(s) {
        var v :| s.proposals == [Proposal(v, v)];
        assert s.proposals[0] == Proposal(v, v);
      }
    }
  }

  lemma BlockedBy(s: State)
    requires s.variant == External && BindTraffic(s) && |s.proposals| <= 1
    ensures Blocked(s) <==> FastForwarded(s) && SawVoteQuorum(s) && s.bind.done && s.bind.bcast == [Bot]
  {
    OneForward(s);
  }

  lemma RoundTraffic(g: Group, coin: Coin, run: seq<Nodes>, i: nat, p: Id, r: nat)
    requires g.Valid() && (forall k: nat :: IsBit(coin(k))) && IsRun(g, coin, run) && i < |run| && p in run[i]
    ensures BindTraffic(Bca(run[i][p], r)) && Bca(run[i][p], r).variant == VariantOf(r)
  {
    var sys := Project(run[i], r);
    ProjectReachable(g, coin, run, i, r);
    NodeTraffic(g, VariantOf(r), sys, p);
  }

  lemma NodeTraffic(g: Group, variant: Variant, sys: C.System, p: Id)
    requires g.Valid() && C.Reachable(g, variant, sys) && p in sys
    ensures BindTraffic(sys[p]) && sys[p].variant == variant
  {
    ReachableTraffic(g, variant, sys);
    C.ReachableInv(g, variant, sys);
    assert C.NodeOk(g, variant, sys[p]);
  }

  lemma RoundProposals(g: Group, coin: Coin, run: seq<Nodes>, i: nat, p: Id, r: nat)
    requires IsRun(g, coin, run) && (forall k: nat :: IsBit(coin(k))) && i < |run| && p in run[i] && r > 0
    ensures |Bca(run[i][p], r).proposals| <= 1
  {
    var before := r - 1;
    RunProposals(g, coin, run, i);
    assert ProposedOnce(run[i][p], before);
  }

  /** At every point of every run, a correct node is blocked in a later round exactly when it fast-forwarded
      to it, has a vote quorum, and waitToBind took bot. */
  lemma BlockedExactlyInRun(g: Group, coin: Coin, run: seq<Nodes>, i: nat, p: Id, r: nat)
    requires g.Valid() && (forall k: nat :: IsBit(coin(k))) && IsRun(g, coin, run) && i < |run| && p in run[i] && r > 0
    ensures var s := Bca(run[i][p], r);
            Blocked(s) <==> FastForwarded(s) && SawVoteQuorum(s) && s.bind.done && s.bind.bcast == [Bot]
  {
    RoundTraffic(g, coin, run, i, p, r);
    RoundProposals(g, coin, run, i, p, r);
    BlockedBy(Bca(run[i][p], r));
  }
}
