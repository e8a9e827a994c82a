/** A run of the whole agreement in which correct nodes block in the second round: four nodes, the last one
    faulty, and a coin of 0. In the first round nodes 0 and 1 decide bot, and node 2, with the help of the
    faulty bind, decides 1. So in the second round 0 and 1 fast-forward on 0 while 2 proposes 1. The faulty
    node echoes 1 and votes 0: nodes 0 and 1 approve both values, bind bot, and then see a vote quorum. */
module AgreementBlocking {
  import opened Quorums
  import opened CrusaderNode
  import C = CrusaderRuns
  import opened CrusaderStretches
  import opened CrusaderBlocking
  import opened AgreementNode
  import opened AgreementRuns
  import opened AgreementBlockingNodes
  import opened AgreementStretches

  const Four: Group := Group(4, 1, {0, 1, 2}, {3})
  const Zero: Coin := _ => 0

  // ---- three correct nodes, of which 0 and 1 do the same

  function Trio(a: Node, b: Node, c: Node): Nodes {
    map[0 := a, 1 := b, 2 := c]
  }

  // What nodes 0 and 1 have sent in state a, node 2 in state b, or node 3 may send.
  predicate Available(a: State, b: State, x: Action) {
    x.Receive? ==> x.from <= 3 && (x.from < 2 ==> Sent(a, x.msg)) && (x.from == 2 ==> Sent(b, x.msg))
  }

  ghost predicate AllAvailable(r: nat, a: State, b: State, xs: seq<Action>) {
    forall i :: 0 <= i < |xs| ==> Available(a, b, xs[i]) && Performable(r, xs[i])
  }

  // Nodes 0 and 1 have sent at least what state a has, node 2 what state b has.
  ghost predicate HaveSent(nodes: Nodes, r: nat, a: State, b: State) {
    && nodes.Keys == {0, 1, 2}
    && (forall m :: Sent(a, m) ==> Sent(Bca(nodes[0], r), m) && Sent(Bca(nodes[1], r), m))
    && (forall m :: Sent(b, m) ==> Sent(Bca(nodes[2], r), m))
  }

  lemma Authenticated(nodes: Nodes, r: nat, a: State, b: State, x: Action)
    requires HaveSent(nodes, r, a, b) && Available(a, b, x)
    ensures C.Authentic(Four, Project(nodes, r), x)
  {
  }

  lemma GroupTurn(nodes: Nodes, p: Id, r: nat, xs: seq<Action>, t: State, a: State, b: State)
    requires Reached(Four, Zero, nodes) && p in nodes && r in nodes[p].rounds && Go(Bca(nodes[p], r), xs, t)
    requires HaveSent(nodes, r, a, b) && AllAvailable(r, a, b, xs)
    ensures Reached(Four, Zero, nodes[p := Put(nodes[p], r, t)])
  {
    forall i | 0 <= i < |xs| ensures Performable(r, xs[i]) && C.Authentic(Four, Project(nodes, r), xs[i]) {
      Authenticated(nodes, r, a, b, xs[i]);
    }
    Turn(Four, Zero, nodes, p, r, xs, t);
  }

  lemma PairTurn(x: Node, y: Node, r: nat, xs: seq<Action>, t: State)
    requires Reached(Four, Zero, Trio(x, x, y)) && r in x.rounds && Go(Bca(x, r), xs, t)
    requires AllAvailable(r, Bca(x, r), Bca(y, r), xs)
    ensures Reached(Four, Zero, Trio(Put(x, r, t), Put(x, r, t), y))
  {
    var x' := Put(x, r, t);
    var nodes, nodes1 := Trio(x, x, y), Trio(x', x, y);
    GroupTurn(nodes, 0, r, xs, t, Bca(x, r), Bca(y, r));
    assert nodes[0 := x'] == nodes1;
    forall m | Sent(Bca(x, r), m) ensures Sent(Bca(x', r), m) {
      PutTwice(x, r, t, t);
      GoGrows(Bca(x, r), xs, t, m);
    }
    GroupTurn(nodes1, 1, r, xs, t, Bca(x, r), Bca(y, r));
    assert nodes1[1 := x'] == Trio(x', x', y);
  }

  lemma LastTurn(x: Node, y: Node, r: nat, ys: seq<Action>, t: State)
    requires Reached(Four, Zero, Trio(x, x, y)) && r in y.rounds && Go(Bca(y, r), ys, t)
    requires AllAvailable(r, Bca(x, r), Bca(y, r), ys)
    ensures Reached(Four, Zero, Trio(x, x, Put(y, r, t)))
  {
    var nodes := Trio(x, x, y);
    GroupTurn(nodes, 2, r, ys, t, Bca(x, r), Bca(y, r));
    assert nodes[2 := Put(y, r, t)] == Trio(x, x, Put(y, r, t));
  }

  // ---- the run

  const Quiet := Gadget(4, 1, PerBit({}, {}), [], 0)

  // A node in its first round, and in its second.
  function First(s: State): Node {
    Node(4, 1, map[0 := Round(s, AwaitDecision)], false, [], Quiet, [])
  }

  function Second(s: State, dec: int, t: State): Node {
    Node(4, 1, map[0 := Round(s, Finished(dec, 0)), 1 := Round(t, AwaitDecision)], false, [], Quiet, [])
  }

  lemma PairFirst(s: State, y: State, xs: seq<Action>, t: State)
    requires Reached(Four, Zero, Trio(First(s), First(s), First(y))) && Go(s, xs, t) && AllAvailable(0, s, y, xs)
    ensures Reached(Four, Zero, Trio(First(t), First(t), First(y)))
  {
    assert Put(First(s), 0, t) == First(t);
    PairTurn(First(s), First(y), 0, xs, t);
  }

  lemma LastFirst(s: State, y: State, ys: seq<Action>, t: State)
    requires Reached(Four, Zero, Trio(First(s), First(s), First(y))) && Go(y, ys, t) && AllAvailable(0, s, y, ys)
    ensures Reached(Four, Zero, Trio(First(s), First(s), First(t)))
  {
    assert Put(First(y), 0, t) == First(t);
    LastTurn(First(s), First(y), 0, ys, t);
  }

  lemma PairSecond(s: State, dec: int, t: State, y: Node, xs: seq<Action>, u: State)
    requires Reached(Four, Zero, Trio(Second(s, dec, t), Second(s, dec, t), y)) && Go(t, xs, u) && AllAvailable(1, t, Bca(y, 1), xs)
    ensures Reached(Four, Zero, Trio(Second(s, dec, u), Second(s, dec, u), y))
  {
    assert Put(Second(s, dec, t), 1, u) == Second(s, dec, u);
    PairTurn(Second(s, dec, t), y, 1, xs, u);
  }

  lemma Started()
    ensures Reached(Four, Zero, Trio(First(X1), First(X1), First(Y1)))
  {
    var s := Fresh(Internal, 4, 1);
    assert Initial(Four) == Trio(First(s), First(s), First(s));
    assert IsRun(Four, Zero, [Initial(Four)]) && [Initial(Four)][0] == Initial(Four);
    assert Reached(Four, Zero, Initial(Four));
    ReachX2();
    PairFirst(s, s, [Start(0, Bot)], X1);
    ReachY2();
    LastFirst(X1, s, [Start(1, Bot)], Y1);
  }

  lemma Available0()
    ensures AllAvailable(0, X1, Y1, [Echo(2, 1), Echo(3, 1)]) && AllAvailable(0, X2, Y1, ToX3)
    ensures AllAvailable(0, X3, Y1, ToX4) && AllAvailable(0, X4, Y1, ToX5) && AllAvailable(0, X5, Y1, ToY2)
  {
  }

  lemma Available1()
    ensures AllAvailable(1, U1, V1, [Echo(2, 1), Echo(3, 1)]) && AllAvailable(1, U2, V1, ToU3) && AllAvailable(1, U3, V1, ToU4)
  {
  }

  lemma FirstRoundOver()
    ensures Reached(Four, Zero, Trio(First(X5), First(X5), First(Y2)))
  {
    Started();
    Available0();
    ReachX2();
    PairFirst(X1, Y1, [Echo(2, 1), Echo(3, 1)], X2);
    ReachX3();
    PairFirst(X2, Y1, ToX3, X3);
    ReachX4();
    PairFirst(X3, Y1, ToX4, X4);
    ReachX5();
    PairFirst(X4, Y1, ToX5, X5);
    ReachY2();
    LastFirst(X5, Y1, ToY2, Y2);
  }

  // The second round as the coin 0 opens it.
  function Opened(dec: int): State {
    CrusaderNode.Propose(Fresh(External, 4, 1), if dec == Bot then 0 else dec, 0)
  }

  // A node reads its decision and takes the coin.
  lemma TakesCoin(nodes: Nodes, p: Id, s: State, dec: int, nodes': Nodes)
    requires Reached(Four, Zero, nodes) && p in nodes && nodes[p] == First(s) && s.decide.output == [dec] && dec != 0
    requires nodes' == nodes[p := Second(s, dec, Opened(dec))]
    ensures Reached(Four, Zero, nodes')
  {
    var x := ReadDecision(First(s), 0);
    ReachedOn(Four, Zero, nodes, p, Read(0), nodes[p := x]);
    var t := Opened(dec);
    assert SubmitCoin(x, 0, 0).rounds == Second(s, dec, t).rounds;
    ReachedOn(Four, Zero, nodes[p := x], p, Toss(0), nodes[p := x][p := Second(s, dec, t)]);
    assert nodes[p := x][p := Second(s, dec, t)] == nodes[p := Second(s, dec, t)];
  }

  lemma AllTakeCoin(s: State, dec: int, y: State, dec': int)
    requires Reached(Four, Zero, Trio(First(s), First(s), First(y)))
    requires s.decide.output == [dec] && y.decide.output == [dec'] && dec != 0 && dec' != 0
    ensures var a := Second(s, dec, Opened(dec)); Reached(Four, Zero, Trio(a, a, Second(y, dec', Opened(dec'))))
  {
    var x, a, z, b := First(s), Second(s, dec, Opened(dec)), First(y), Second(y, dec', Opened(dec'));
    Updates(x, x, z, a);
    TakesCoin(Trio(x, x, z), 0, s, dec, Trio(a, x, z));
    Updates(a, x, z, a);
    TakesCoin(Trio(a, x, z), 1, s, dec, Trio(a, a, z));
    Updates(a, a, z, b);
    TakesCoin(Trio(a, a, z), 2, y, dec', Trio(a, a, b));
  }

  lemma Updates(a: Node, b: Node, c: Node, x: Node)
    ensures Trio(a, b, c)[0 := x] == Trio(x, b, c) && Trio(a, b, c)[1 := x] == Trio(a, x, c) && Trio(a, b, c)[2 := x] == Trio(a, b, x)
  {
  }

  const Stuck: Nodes := Trio(Second(X5, Bot, U4), Second(X5, Bot, U4), Second(Y2, 1, V1))

  lemma SecondRoundOver()
    ensures Reached(Four, Zero, Stuck)
  {
    FirstRoundOver();
    AllTakeCoin(X5, Bot, Y2, 1);
    Available1();
    var y := Second(Y2, 1, V1);
    ReachU2();
    PairSecond(X5, Bot, U1, y, [Echo(2, 1), Echo(3, 1)], U2);
    ReachU3();
    PairSecond(X5, Bot, U2, y, ToU3, U3);
    ReachU4();
    PairSecond(X5, Bot, U3, y, ToU4, U4);
  }

  /** A state of a run of the agreement, with one faulty node among four and one coin for all, in which two
      correct nodes are blocked in their second round. */
  lemma CorrectNodesBlock()
    ensures Four.Valid() && Reached(Four, Zero, Stuck) && Blocked(Bca(Stuck[0], 1)) && Blocked(Bca(Stuck[1], 1))
  {
    SecondRoundOver();
  }
}
