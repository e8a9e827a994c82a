/** Why the last condition of `CrusaderProgress.AllDecide` is there: a run of the first-round variant that
    settles with one correct node decided and the two others waiting for ever. The first, fed a bind of bot
    by the faulty node, decides and leaves waitToVote before it has bound; the others are then one bind
    short of a quorum. */
module CrusaderUndecided {
  import opened Quorums
  import opened CrusaderNode
  import opened CrusaderRuns
  import opened CrusaderProgress
  import opened CrusaderStretches

  // ---- the two kinds of node: 0 proposes 0, 1 and 2 propose 1

  const Four: Group := Group(4, 1, {0, 1, 2}, {3})

  function Make(echo: EchoStage, vote: VoteStage, bind: BindStage, decide: DecideStage, est: int): State {
    State(Internal, 4, 1, [Proposal(est, Bot)], echo, vote, bind, decide)
  }

  const NoVote := VoteStage(AwaitFirst, [], PerBit({}, {}), Chan([], 0), Chan([], 0))
  const NoBind := BindStage(false, [], PerOutcome({}, {}, {}), Chan([], 0), Chan([], 0))
  const NoDecide := DecideStage(AwaitSignal, [], Chan([], 0))

  function Echoed(sent: PerBit<bool>, from: PerBit<set<Id>>, bcast: seq<int>, approved: seq<int>, taken: nat): EchoStage {
    EchoStage(sent, from, bcast, Chan(approved, taken), approved)
  }

  const Both := PerBit(true, true)

  // Node 0: proposed; amplified the echoes of 1; approved 0 and voted for it, then approved 1.
  const A1 := Make(Echoed(PerBit(true, false), PerBit({}, {}), [0], [], 0), NoVote, NoBind, NoDecide, 0)
  const A2 := Make(Echoed(Both, PerBit({}, {1, 2}), [0, 1], [], 0), NoVote, NoBind, NoDecide, 0)
  const A3 := Make(Echoed(Both, PerBit({0, 1, 2}, {0, 1, 2}), [0, 1], [0, 1], 1),
                   VoteStage(AwaitSecond(0), [0], PerBit({}, {}), Chan([], 0), Chan([], 0)), NoBind, NoDecide, 0)
  // Decided bot on three binds, and left waitToVote.
  const A4 := Make(Echoed(Both, PerBit({0, 1, 2}, {0, 1, 2}), [0, 1], [0, 1], 1),
                   VoteStage(Unblocked, [0], PerBit({0}, {1, 2}), Chan([], 0), Chan([], 0)),
                   BindStage(false, [], PerOutcome({}, {}, {1, 2, 3}), Chan([], 0), Chan([Bot], 1)),
                   DecideStage(Decided, [Bot], Chan([()], 1)), 0)

  // Nodes 1 and 2: the same with the values exchanged, but they see both values approved and bind bot.
  const B1 := Make(Echoed(PerBit(false, true), PerBit({}, {}), [1], [], 0), NoVote, NoBind, NoDecide, 1)
  const B2 := Make(Echoed(Both, PerBit({0, 3}, {}), [1, 0], [], 0), NoVote, NoBind, NoDecide, 1)
  const B3 := Make(Echoed(Both, PerBit({0, 1, 2, 3}, {0, 1, 2}), [1, 0], [1, 0], 2),
                   VoteStage(SawBoth, [1], PerBit({}, {}), Chan([()], 1), Chan([], 0)),
                   BindStage(true, [Bot], PerOutcome({}, {}, {}), Chan([()], 1), Chan([], 0)),
                   DecideStage(AwaitMore, [], Chan([], 0)), 1)
  const B4 := Make(Echoed(Both, PerBit({0, 1, 2, 3}, {0, 1, 2}), [1, 0], [1, 0], 2),
                   VoteStage(SawBoth, [1], PerBit({0}, {1, 2}), Chan([()], 1), Chan([], 0)),
                   BindStage(true, [Bot], PerOutcome({}, {}, {1, 2}), Chan([()], 1), Chan([], 0)),
                   DecideStage(AwaitMore, [], Chan([], 0)), 1)

  // ---- their stretches

  lemma StartBoth()
    ensures Go(Fresh(Internal, 4, 1), [Start(0, Bot)], A1) && Go(Fresh(Internal, 4, 1), [Start(1, Bot)], B1)
  {
    GoOne(Fresh(Internal, 4, 1), Start(0, Bot), A1);
    GoOne(Fresh(Internal, 4, 1), Start(1, Bot), B1);
  }

  lemma AmplifyBoth()
    ensures Go(A1, [Echo(1, 1), Echo(2, 1)], A2) && Go(B1, [Echo(0, 0), Echo(3, 0)], B2)
  {
    Amplified(A1, 1, 1, 2);
    Amplified(B1, 0, 0, 3);
  }

  // ---- node 0 votes

  const ToA3: seq<Action> := [Echo(0, 0), Echo(1, 0), Echo(2, 0), Run(VoteFirst), Echo(0, 1)]

  // Three echoes of a value already echoed approve it.
  lemma Approved(s: State, v: int)
    requires s.variant == Internal && s.n == 4 && s.f == 1 && IsBit(v) && s.echo.from.At(v) == {} && s.echo.sent.At(v)
    ensures var e := s.echo.(from := s.echo.from.Put(v, {0, 1, 2}), extValid := s.echo.extValid + [v]);
            Go(s, [Echo(0, v), Echo(1, v), Echo(2, v)], s.(echo := Approve(e, v)))
  {
    var e2 := s.echo.(from := s.echo.from.Put(v, {0, 1}));
    Amplified(s, v, 0, 1);
    assert EchoOnce(e2, v) == e2;
    EchoCounted(Internal, e2, v, 2);
    assert {0, 1} + {2} == {0, 1, 2};
    var e := s.echo.(from := s.echo.from.Put(v, {0, 1, 2}), extValid := s.echo.extValid + [v]);
    GoEcho(s, [Echo(0, v), Echo(1, v)], s.(echo := e2), 2, v, Approve(e, v));
    assert [Echo(0, v), Echo(1, v)] + [Echo(2, v)] == [Echo(0, v), Echo(1, v), Echo(2, v)];
  }

  lemma ReachA3()
    ensures Go(A2, ToA3, A3)
  {
    Approved(A2, 0);
    var first := [Echo(0, 0), Echo(1, 0), Echo(2, 0)];
    var t := A2.(echo := Echoed(Both, PerBit({0, 1, 2}, {1, 2}), [0, 1], [0], 0));
    assert Go(A2, first, t);
    var u := Work(t, VoteFirst);
    GoOn(A2, first, t, Run(VoteFirst), u);
    EchoCounted(Internal, u.echo, 1, 0);
    assert {1, 2} + {0} == {0, 1, 2};
    GoEcho(A2, first + [Run(VoteFirst)], u, 0, 1, A3.echo);
    assert first + [Run(VoteFirst)] + [Echo(0, 1)] == ToA3;
  }

  // ---- nodes 1 and 2 vote and bind bot

  const ToB3: seq<Action> :=
    [Echo(0, 1), Echo(1, 1), Echo(2, 1), Run(VoteFirst), Echo(1, 0), Echo(2, 0), Run(VoteSecond), Run(BindBot), Run(DecideBot)]

  const B2Vote := B2.(echo := Echoed(Both, PerBit({0, 1, 2, 3}, {0, 1, 2}), [1, 0], [1, 0], 1),
                      vote := NoVote.(voter := AwaitSecond(1), bcast := [1]))

  lemma ReachB2Vote()
    ensures Go(B2, ToB3[..6], B2Vote)
  {
    Approved(B2, 1);
    var first := [Echo(0, 1), Echo(1, 1), Echo(2, 1)];
    var t := B2.(echo := Echoed(Both, PerBit({0, 3}, {0, 1, 2}), [1, 0], [1], 0));
    assert Go(B2, first, t);
    var u := Work(t, VoteFirst);
    GoOn(B2, first, t, Run(VoteFirst), u);
    var e := Echoed(Both, PerBit({0, 1, 3}, {0, 1, 2}), [1, 0], [1, 0], 1);
    TwoMoreEchoes(u.echo, e);
    GoEcho(B2, first + [Run(VoteFirst)], u, 1, 0, e);
    GoEcho(B2, first + [Run(VoteFirst)] + [Echo(1, 0)], u.(echo := e), 2, 0, B2Vote.echo);
    assert first + [Run(VoteFirst)] + [Echo(1, 0)] + [Echo(2, 0)] == ToB3[..6];
  }

  lemma TwoMoreEchoes(e: EchoStage, e1: EchoStage)
    requires e == Echoed(Both, PerBit({0, 3}, {0, 1, 2}), [1, 0], [1], 1)
    requires e1 == Echoed(Both, PerBit({0, 1, 3}, {0, 1, 2}), [1, 0], [1, 0], 1)
    ensures EchoAccepted(e, 0, 1) && CountEcho(Internal, 4, 1, e, 0, 1) == e1
    ensures EchoAccepted(e1, 0, 2) && CountEcho(Internal, 4, 1, e1, 0, 2) == B2Vote.echo
  {
    EchoCounted(Internal, e, 0, 1);
    assert {0, 3} + {1} == {0, 1, 3};
    EchoCounted(Internal, e1, 0, 2);
    assert {0, 1, 3} + {2} == {0, 1, 2, 3};
  }

  lemma ReachB3()
    ensures Go(B2, ToB3, B3)
  {
    ReachB2Vote();
    var t := Work(B2Vote, VoteSecond);
    var u := Work(t, BindBot);
    GoOn(B2, ToB3[..6], B2Vote, Run(VoteSecond), t);
    GoOn(B2, ToB3[..6] + [Run(VoteSecond)], t, Run(BindBot), u);
    GoOn(B2, ToB3[..6] + [Run(VoteSecond)] + [Run(BindBot)], u, Run(DecideBot), B3);
    assert ToB3[..6] + [Run(VoteSecond)] + [Run(BindBot)] + [Run(DecideBot)] == ToB3;
  }

  // ---- votes and binds arrive

  const AllVotes: seq<Action> := [Vote(0, 0), Vote(1, 1), Vote(2, 1)]

  lemma Voted(s: State)
    requires s.n == 4 && s.f == 1 && s.vote.from == PerBit({}, {})
    ensures Go(s, AllVotes, s.(vote := s.vote.(from := PerBit({0}, {1, 2}))))
  {
    var w1 := s.vote.(from := PerBit({0}, {}));
    var w2 := s.vote.(from := PerBit({0}, {1}));
    var w3 := s.vote.(from := PerBit({0}, {1, 2}));
    assert CountVote(3, s.vote, 0, 0) == w1;
    assert CountVote(3, w1, 1, 1) == w2;
    assert {1} + {2} == {1, 2};
    assert CountVote(3, w2, 1, 2) == w3;
    RunThree(s, Vote(0, 0), Vote(1, 1), Vote(2, 1), s.(vote := w1), s.(vote := w2), s.(vote := w3));
  }

  lemma Bound(s: State)
    requires s.variant == Internal && s.n == 4 && s.f == 1 && s.bind.from == PerOutcome({}, {}, {})
    ensures Go(s, [Bind(1, Bot), Bind(2, Bot)], s.(bind := s.bind.(from := PerOutcome({}, {}, {1, 2}))))
  {
    var b1 := s.bind.(from := PerOutcome({}, {}, {1}));
    var b2 := s.bind.(from := PerOutcome({}, {}, {1, 2}));
    assert CountBind(3, s.bind, Bot, 1) == b1;
    assert {1} + {2} == {1, 2};
    assert CountBind(3, b1, Bot, 2) == b2;
    GoOne(s, Bind(1, Bot), s.(bind := b1));
    GoOn(s, [Bind(1, Bot)], s.(bind := b1), Bind(2, Bot), s.(bind := b2));
    assert [Bind(1, Bot)] + [Bind(2, Bot)] == [Bind(1, Bot), Bind(2, Bot)];
  }

  const ToB4: seq<Action> := AllVotes + [Bind(1, Bot), Bind(2, Bot)]

  lemma ReachB4()
    ensures Go(B3, ToB4, B4)
  {
    Voted(B3);
    Bound(After(B3, AllVotes));
    RunConcat(B3, AllVotes, [Bind(1, Bot), Bind(2, Bot)]);
  }

  const ToA4: seq<Action> := ToB4 + [Bind(3, Bot)] + [Run(DecideVal)] + [Run(VoteUnblock)]

  const A3Bound := A3.(vote := A3.vote.(from := PerBit({0}, {1, 2})),
                       bind := NoBind.(from := PerOutcome({}, {}, {1, 2})))

  lemma ReachA3Bound()
    ensures Go(A3, ToB4, A3Bound)
  {
    Voted(A3);
    Bound(After(A3, AllVotes));
    RunConcat(A3, AllVotes, [Bind(1, Bot), Bind(2, Bot)]);
  }

  lemma ReachA4()
    ensures Go(A3, ToA4, A4)
  {
    ReachA3Bound();
    var b3 := BindStage(false, [], PerOutcome({}, {}, {1, 2, 3}), Chan([], 0), Chan([Bot], 0));
    assert {1, 2} + {3} == {1, 2, 3};
    assert CountBind(3, A3Bound.bind, Bot, 3) == b3;
    var u := A3Bound.(bind := b3);
    GoOn(A3, ToB4, A3Bound, Bind(3, Bot), u);
    var w := Work(u, DecideVal);
    GoOn(A3, ToB4 + [Bind(3, Bot)], u, Run(DecideVal), w);
    GoOn(A3, ToB4 + [Bind(3, Bot)] + [Run(DecideVal)], w, Run(VoteUnblock), A4);
  }

  // ---- the group

  function Sys(a: State, b: State, c: State): System {
    map[0 := a, 1 := b, 2 := c]
  }

  // What nodes in states a, b, b have sent, or the faulty one may send.
  predicate Available(a: State, b: State, x: Action) {
    x.Receive? ==> x.from <= 3 && (x.from == 0 ==> Sent(a, x.msg)) && (x.from == 1 || x.from == 2 ==> Sent(b, x.msg))
  }

  ghost predicate AllAvailable(a: State, b: State, xs: seq<Action>) {
    forall i :: 0 <= i < |xs| ==> Available(a, b, xs[i])
  }

  // Node p of a group whose members have sent at least that much.
  lemma Turn(sys: System, p: Id, t: State, a: State, b: State, xs: seq<Action>)
    requires Reachable(Four, Internal, sys) && sys.Keys == {0, 1, 2} && p in sys && Go(sys[p], xs, t)
    requires AllAvailable(a, b, xs) && forall m :: (Sent(a, m) ==> Sent(sys[0], m)) && (Sent(b, m) ==> Sent(sys[1], m) && Sent(sys[2], m))
    ensures Reachable(Four, Internal, sys[p := t])
  {
    forall i | 0 <= i < |xs| ensures Authentic(Four, sys, xs[i]) {
      assert Available(a, b, xs[i]);
    }
    Batch(Four, Internal, sys, p, xs, t);
  }

  // Each node in turn goes through a stretch; nodes 1 and 2 through the same.
  lemma Phase(a: State, b: State, a': State, b': State, xs: seq<Action>, ys: seq<Action>)
    requires Reachable(Four, Internal, Sys(a, b, b)) && Go(a, xs, a') && Go(b, ys, b')
    requires AllAvailable(a, b, xs) && AllAvailable(a, b, ys)
    ensures Reachable(Four, Internal, Sys(a', b', b'))
  {
    forall m ensures (Sent(a, m) ==> Sent(a', m)) && (Sent(b, m) ==> Sent(b', m)) {
      if Sent(a, m) { GoGrows(a, xs, a', m); }
      if Sent(b, m) { GoGrows(b, ys, b', m); }
    }
    Turn(Sys(a, b, b), 0, a', a, b, xs);
    assert Sys(a, b, b)[0 := a'] == Sys(a', b, b);
    Turn(Sys(a', b, b), 1, b', a, b, ys);
    assert Sys(a', b, b)[1 := b'] == Sys(a', b', b);
    Turn(Sys(a', b', b), 2, b', a, b, ys);
    assert Sys(a', b', b)[2 := b'] == Sys(a', b', b');
  }

  lemma Started()
    ensures Reachable(Four, Internal, Sys(A1, B1, B1))
  {
    var s := Fresh(Internal, 4, 1);
    assert Initial(Four, Internal) == Sys(s, s, s);
    assert Path(Four, [Sys(s, s, s)]);
    assert Reachable(Four, Internal, Sys(s, s, s));
    StartBoth();
    Phase(s, s, A1, B1, [Start(0, Bot)], [Start(1, Bot)]);
  }

  const Stuck: System := Sys(A4, B4, B4)

  lemma EchoesAvailable()
    ensures AllAvailable(A1, B1, [Echo(1, 1), Echo(2, 1)]) && AllAvailable(A1, B1, [Echo(0, 0), Echo(3, 0)])
  {
  }

  lemma MoreEchoesAvailable()
    ensures AllAvailable(A2, B2, ToA3) && AllAvailable(A2, B2, ToB3)
  {
  }

  lemma VotesAvailable()
    ensures AllAvailable(A3, B3, ToA4) && AllAvailable(A3, B3, ToB4)
  {
  }

  lemma AmplifiedAll()
    ensures Reachable(Four, Internal, Sys(A2, B2, B2))
  {
    Started();
    AmplifyBoth();
    EchoesAvailable();
    Phase(A1, B1, A2, B2, [Echo(1, 1), Echo(2, 1)], [Echo(0, 0), Echo(3, 0)]);
  }

  lemma VotedAll()
    ensures Reachable(Four, Internal, Sys(A3, B3, B3))
  {
    AmplifiedAll();
    ReachA3();
    ReachB3();
    MoreEchoesAvailable();
    Phase(A2, B2, A3, B3, ToA3, ToB3);
  }

  lemma StuckReachable()
    ensures Reachable(Four, Internal, Stuck)
  {
    VotedAll();
    ReachA4();
    ReachB4();
    VotesAvailable();
    Phase(A3, B3, A4, B4, ToA4, ToB4);
  }

  /** All correct messages processed everywhere, no goroutine with anything to take, and two of the three
      correct nodes undecided. */
  lemma SomeNeverDecide()
    ensures Four.Valid() && Reachable(Four, Internal, Stuck) && Settled(Stuck)
    ensures HasDecided(Stuck[0]) && !HasDecided(Stuck[1]) && !HasDecided(Stuck[2])
  {
    StuckReachable();
    forall j ensures !Enabled(A4, j) && !Enabled(B4, j) {
    }
    forall p, q, m | p in Stuck && q in Stuck && Sent(Stuck[q], m) ensures Counted(Stuck[p], q, m) {
    }
  }
}
