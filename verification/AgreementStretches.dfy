/** Stretches of a run of the agreement: what one node does in one round, as crusader stretches are. */
module AgreementStretches {
  import opened Quorums
  import opened CrusaderNode
  import C = CrusaderRuns
  import opened CrusaderStretches
  import opened AgreementNode
  import opened AgreementRuns

  ghost predicate Reached(g: Group, coin: Coin, nodes: Nodes) {
    exists run :: IsRun(g, coin, run) && run[|run| - 1] == nodes
  }

  lemma ReachedOn(g: Group, coin: Coin, nodes: Nodes, p: Id, e: Event, nodes': Nodes)
    requires Reached(g, coin, nodes) && Step(g, coin, nodes, p, e, nodes')
    ensures Reached(g, coin, nodes')
  {
    var run :| IsRun(g, coin, run) && run[|run| - 1] == nodes;
    var run' := run + [nodes'];
    forall i | 0 <= i < |run'| - 1 ensures Next(g, coin, run'[i], run'[i + 1]) {
      if i < |run| - 1 {
        assert Next(g, coin, run[i], run[i + 1]);
      }
    }
    assert IsRun(g, coin, run') && run'[|run'| - 1] == nodes';
  }

  // ---- a stretch of one node in one round

  function Put(x: Node, r: nat, t: State): Node {
    WithRound(x, r, RoundOf(x, r).(bca := t))
  }

  lemma PutSame(x: Node, r: nat)
    requires r in x.rounds
    ensures Put(x, r, Bca(x, r)) == x
  {
    assert x.rounds[r := x.rounds[r]] == x.rounds;
  }

  lemma PutTwice(x: Node, r: nat, s: State, t: State)
    ensures Put(Put(x, r, s), r, t) == Put(x, r, t) && Bca(Put(x, r, s), r) == s
  {
    var round := RoundOf(x, r);
    assert x.rounds[r := round.(bca := s)][r := round.(bca := t)] == x.rounds[r := round.(bca := t)];
  }

  // Proposals are made by the caller in the first round only.
  predicate Performable(r: nat, a: Action) {
    a.Start? ==> r == 0 && a.coin == Bot
  }

  lemma OneAction(g: Group, coin: Coin, nodes: Nodes, p: Id, r: nat, a: Action)
    requires Reached(g, coin, nodes) && p in nodes && Can(Bca(nodes[p], r), a) && Performable(r, a)
    requires C.Authentic(g, Project(nodes, r), a)
    ensures Reached(g, coin, nodes[p := Put(nodes[p], r, Apply(Bca(nodes[p], r), a))])
  {
    var e := match a
      case Start(est, c) => Propose(est)
      case Receive(from, msg) => Event.Receive(r, from, msg)
      case Run(job) => Work(r, job);
    ReachedOn(g, coin, nodes, p, e, nodes[p := Put(nodes[p], r, Apply(Bca(nodes[p], r), a))]);
  }

  lemma {:induction false} Turn(g: Group, coin: Coin, nodes: Nodes, p: Id, r: nat, xs: seq<Action>, t: State)
    requires Reached(g, coin, nodes) && p in nodes && r in nodes[p].rounds && Go(Bca(nodes[p], r), xs, t)
    requires forall i :: 0 <= i < |xs| ==> Performable(r, xs[i]) && C.Authentic(g, Project(nodes, r), xs[i])
    ensures Reached(g, coin, nodes[p := Put(nodes[p], r, t)])
    decreases |xs|
  {
    if xs == [] {
      PutSame(nodes[p], r);
      assert nodes[p := nodes[p]] == nodes;
    } else {
      var a, rest := xs[0], xs[1..];
      var s := Apply(Bca(nodes[p], r), a);
      var nodes1 := nodes[p := Put(nodes[p], r, s)];
      OneAction(g, coin, nodes, p, r, a);
      forall i | 0 <= i < |rest| ensures Performable(r, rest[i]) && C.Authentic(g, Project(nodes1, r), rest[i]) {
        assert Performable(r, xs[i + 1]);
        Remains(g, coin, nodes, p, r, a, nodes1, xs[i + 1]);
      }
      Turn(g, coin, nodes1, p, r, rest, t);
      PutTwice(nodes[p], r, s, t);
      assert nodes1[p := Put(nodes1[p], r, t)] == nodes[p := Put(nodes1[p], r, t)];
    }
  }

  lemma Remains(g: Group, coin: Coin, nodes: Nodes, p: Id, r: nat, a: Action, nodes': Nodes, b: Action)
    requires p in nodes && Can(Bca(nodes[p], r), a) && nodes' == nodes[p := Act(nodes[p], r, a)]
    requires C.Authentic(g, Project(nodes, r), a) && C.Authentic(g, Project(nodes, r), b)
    ensures C.Authentic(g, Project(nodes', r), b)
  {
    ProjectMoved(nodes, p, r, a, r);
    StillAuthentic(g, Project(nodes, r), p, a, Project(nodes', r), b);
  }
}
