/** The stretches of single nodes that `AgreementBlocking` puts together: four nodes, the last one faulty. */
module AgreementBlockingNodes {
  import opened Quorums
  import opened CrusaderNode
  import opened CrusaderStretches

  // ---- first round, nodes 0 and 1: propose 0, amplify 1, approve 1 and then 0, bind 1, decide bot

  const Both := PerBit(true, true)
  const X1 := Fresh(Internal, 4, 1).(proposals := [Proposal(0, Bot)],
    echo := EchoStage(PerBit(true, false), PerBit({}, {}), [0], Chan([], 0), []))
  const X2 := X1.(echo := EchoStage(Both, PerBit({}, {2, 3}), [0, 1], Chan([], 0), []))
  const X3 := X2.(echo := EchoStage(Both, PerBit({0, 1, 3}, {0, 2, 3}), [0, 1], Chan([1, 0], 2), [1, 0]),
    vote := VoteStage(SawBoth, [1], PerBit({}, {}), Chan([()], 0), Chan([], 0)),
    bind := X2.bind.(termBot := Chan([()], 0)))
  const X4 := X3.(vote := VoteStage(SawBoth, [1], PerBit({}, {0, 1, 3}), Chan([()], 0), Chan([1], 1)),
    bind := BindStage(true, [1], PerOutcome({}, {}, {}), Chan([()], 0), Chan([], 0)))
  const X5 := X4.(bind := BindStage(true, [1], PerOutcome({}, {0, 1}, {3}), Chan([(), ()], 2), Chan([], 0)),
    decide := DecideStage(Decided, [Bot], Chan([()], 0)))

  const ToX3: seq<Action> :=
    [Echo(0, 1)] + [Run(VoteFirst)] + [Echo(0, 0)] + [Echo(1, 0)] + [Echo(3, 0)] + [Run(VoteSecond)]
  const ToX4: seq<Action> := [Vote(0, 1), Vote(1, 1), Vote(3, 1)] + [Run(BindVal)]
  const ToX5: seq<Action> := [Bind(3, Bot), Bind(0, 1), Bind(1, 1)] + [Run(DecideBot)] + [Run(DecideBot)]

  lemma ReachX2()
    ensures Go(Fresh(Internal, 4, 1), [Start(0, Bot)], X1) && Go(X1, [Echo(2, 1), Echo(3, 1)], X2)
  {
    GoOne(Fresh(Internal, 4, 1), Start(0, Bot), X1);
    Amplified(X1, 1, 2, 3);
  }

  // A third echo of a value approves it.
  lemma ThirdEcho(s: State, first: seq<Action>, t: State, from: Id, v: int, e: EchoStage)
    requires Go(s, first, t) && t.n == 4 && t.f == 1 && EchoAccepted(t.echo, v, from) && |t.echo.from.At(v)| == 2
    requires var from' := t.echo.from.Put(v, t.echo.from.At(v) + {from});
             e == t.echo.(from := from', approve := t.echo.approve.Send(v),
                          extValid := t.echo.extValid + if t.variant == Internal then [v] else [])
    ensures Go(s, first + [Echo(from, v)], t.(echo := e))
  {
    EchoCounted(t.variant, t.echo, v, from);
    GoEcho(s, first, t, from, v, e);
  }

  const X2Vote := X2.(echo := EchoStage(Both, PerBit({}, {0, 2, 3}), [0, 1], Chan([1], 1), [1]),
                      vote := X2.vote.(voter := AwaitSecond(1), bcast := [1]))

  lemma ReachX2Vote()
    ensures Go(X2, [Echo(0, 1)] + [Run(VoteFirst)], X2Vote)
  {
    var e := EchoStage(Both, PerBit({}, {0, 2, 3}), [0, 1], Chan([1], 0), [1]);
    assert {2, 3} + {0} == {0, 2, 3};
    assert Go(X2, [], X2);
    ThirdEcho(X2, [], X2, 0, 1, e);
    assert [] + [Echo(0, 1)] == [Echo(0, 1)];
    GoOn(X2, [Echo(0, 1)], X2.(echo := e), Run(VoteFirst), X2Vote);
  }

  lemma ReachX3()
    ensures Go(X2, ToX3, X3)
  {
    ReachX2Vote();
    Amplified(X2Vote, 0, 0, 1);
    var e2 := X2Vote.echo.(from := PerBit({0, 1}, {0, 2, 3}));
    assert EchoOnce(e2, 0) == e2;
    var first := [Echo(0, 1)] + [Run(VoteFirst)];
    RunConcat(X2, first, [Echo(0, 0), Echo(1, 0)]);
    var e3 := EchoStage(Both, PerBit({0, 1, 3}, {0, 2, 3}), [0, 1], Chan([1, 0], 1), [1, 0]);
    assert {0, 1} + {3} == {0, 1, 3};
    ThirdEcho(X2, first + [Echo(0, 0), Echo(1, 0)], X2Vote.(echo := e2), 3, 0, e3);
    GoOn(X2, first + [Echo(0, 0), Echo(1, 0)] + [Echo(3, 0)], X2Vote.(echo := e3), Run(VoteSecond), X3);
    assert first + [Echo(0, 0), Echo(1, 0)] + [Echo(3, 0)] + [Run(VoteSecond)] == ToX3;
  }

  // Three votes for a value hand it to waitToBind.
  lemma ThreeVotes(s: State, v: int)
    requires s.n == 4 && s.f == 1 && IsBit(v) && s.vote.from == PerBit({}, {})
    ensures Go(s, [Vote(0, v), Vote(1, v), Vote(3, v)],
               s.(vote := s.vote.(from := s.vote.from.Put(v, {0, 1, 3}), bindVal := s.vote.bindVal.Send(v))))
  {
    var w1 := s.vote.(from := s.vote.from.Put(v, {0}));
    var w2 := s.vote.(from := s.vote.from.Put(v, {0, 1}));
    var w3 := s.vote.(from := s.vote.from.Put(v, {0, 1, 3}), bindVal := s.vote.bindVal.Send(v));
    VotesCounted(s.vote, v, w1, w2, w3);
    RunThree(s, Vote(0, v), Vote(1, v), Vote(3, v), s.(vote := w1), s.(vote := w2), s.(vote := w3));
  }

  lemma VotesCounted(w: VoteStage, v: int, w1: VoteStage, w2: VoteStage, w3: VoteStage)
    requires IsBit(v) && w.from == PerBit({}, {})
    requires w1 == w.(from := w.from.Put(v, {0})) && w2 == w.(from := w.from.Put(v, {0, 1}))
    requires w3 == w.(from := w.from.Put(v, {0, 1, 3}), bindVal := w.bindVal.Send(v))
    ensures VoteAccepted(w, v, 0) && CountVote(3, w, v, 0) == w1
    ensures VoteAccepted(w1, v, 1) && CountVote(3, w1, v, 1) == w2
    ensures VoteAccepted(w2, v, 3) && CountVote(3, w2, v, 3) == w3
  {
    VoteCounted(w, v, 0);
    VoteCounted(w1, v, 1);
    VoteCounted(w2, v, 3);
    assert {} + {0} == {0} && {0} + {1} == {0, 1} && {0, 1} + {3} == {0, 1, 3};
  }

  lemma VoteCounted(w: VoteStage, v: int, from: Id)
    requires VoteAccepted(w, v, from) && w.from.At(1 - v) == {}
    ensures var w1 := w.(from := w.from.Put(v, w.from.At(v) + {from}));
            CountVote(3, w, v, from) == if |w.from.At(v)| == 2 then w1.(bindVal := w1.bindVal.Send(v)) else w1
  {
    assert |w.from.At(v) + {from}| == |w.from.At(v)| + 1;
  }

  lemma ReachX4()
    ensures Go(X3, ToX4, X4)
  {
    ThreeVotes(X3, 1);
    var t := X3.(vote := VoteStage(SawBoth, [1], PerBit({}, {0, 1, 3}), Chan([()], 0), Chan([1], 0)));
    GoOn(X3, [Vote(0, 1), Vote(1, 1), Vote(3, 1)], t, Run(BindVal), X4);
  }

  lemma ReachX5()
    ensures Go(X4, ToX5, X5)
  {
    var b1 := X4.bind.(from := PerOutcome({}, {}, {3}));
    var b2 := X4.bind.(from := PerOutcome({}, {0}, {3}));
    var b3 := BindStage(true, [1], PerOutcome({}, {0, 1}, {3}), Chan([(), ()], 0), Chan([], 0));
    assert CountBind(3, X4.bind, Bot, 3) == b1;
    assert CountBind(3, b1, 1, 0) == b2;
    assert {0} + {1} == {0, 1};
    assert CountBind(3, b2, 1, 1) == b3;
    RunThree(X4, Bind(3, Bot), Bind(0, 1), Bind(1, 1), X4.(bind := b1), X4.(bind := b2), X4.(bind := b3));
    var first := [Bind(3, Bot), Bind(0, 1), Bind(1, 1)];
    var t := Work(X4.(bind := b3), DecideBot);
    GoOn(X4, first, X4.(bind := b3), Run(DecideBot), t);
    GoOn(X4, first + [Run(DecideBot)], t, Run(DecideBot), X5);
  }

  // ---- first round, node 2: proposes 1, and decides it on the binds of 0, 1 and 3

  const Y1 := Fresh(Internal, 4, 1).(proposals := [Proposal(1, Bot)],
    echo := EchoStage(PerBit(false, true), PerBit({}, {}), [1], Chan([], 0), []))
  const Y2 := Y1.(bind := BindStage(false, [], PerOutcome({}, {0, 1, 3}, {}), Chan([], 0), Chan([1], 1)),
    decide := DecideStage(Decided, [1], Chan([()], 0)))

  const ToY2: seq<Action> := [Bind(0, 1), Bind(1, 1), Bind(3, 1)] + [Run(DecideVal)]

  lemma ReachY2()
    ensures Go(Fresh(Internal, 4, 1), [Start(1, Bot)], Y1) && Go(Y1, ToY2, Y2)
  {
    GoOne(Fresh(Internal, 4, 1), Start(1, Bot), Y1);
    var b1 := Y1.bind.(from := PerOutcome({}, {0}, {}));
    var b2 := Y1.bind.(from := PerOutcome({}, {0, 1}, {}));
    var b3 := BindStage(false, [], PerOutcome({}, {0, 1, 3}, {}), Chan([], 0), Chan([1], 0));
    assert CountBind(3, Y1.bind, 1, 0) == b1;
    assert {0} + {1} == {0, 1};
    assert CountBind(3, b1, 1, 1) == b2;
    assert {0, 1} + {3} == {0, 1, 3};
    assert CountBind(3, b2, 1, 3) == b3;
    RunThree(Y1, Bind(0, 1), Bind(1, 1), Bind(3, 1), Y1.(bind := b1), Y1.(bind := b2), Y1.(bind := b3));
    GoOn(Y1, [Bind(0, 1), Bind(1, 1), Bind(3, 1)], Y1.(bind := b3), Run(DecideVal), Y2);
  }

  // ---- second round, nodes 0 and 1: fast-forward on 0, amplify and approve 1, bind bot, see votes for 0

  const U1 := Propose(Fresh(External, 4, 1), 0, 0)
  const U2 := U1.(echo := EchoStage(Both, PerBit({}, {2, 3}), [1], Chan([0], 0), []))
  const U3 := U2.(echo := EchoStage(Both, PerBit({}, {0, 2, 3}), [1], Chan([0, 1], 2), [0, 1]),
    vote := VoteStage(SawBoth, [0], PerBit({}, {}), Chan([()], 1), Chan([0], 0)),
    bind := BindStage(true, [Bot], PerOutcome({}, {}, {}), Chan([()], 0), Chan([], 0)))
  const U4 := U3.(vote := VoteStage(SawBoth, [0], PerBit({0, 1, 3}, {}), Chan([()], 1), Chan([0, 0], 0)))

  const ToU3: seq<Action> := [Echo(0, 1)] + [Run(VoteFirst)] + [Run(VoteSecond)] + [Run(BindBot)]
  const ToU4: seq<Action> := [Vote(0, 0), Vote(1, 0), Vote(3, 0)]

  lemma ReachU2()
    ensures Go(U1, [Echo(2, 1), Echo(3, 1)], U2)
  {
    Amplified(U1, 1, 2, 3);
  }

  lemma ReachU3()
    ensures Go(U2, ToU3, U3)
  {
    var e := EchoStage(Both, PerBit({}, {0, 2, 3}), [1], Chan([0, 1], 0), []);
    assert {2, 3} + {0} == {0, 2, 3};
    assert Go(U2, [], U2);
    ThirdEcho(U2, [], U2, 0, 1, e);
    assert [] + [Echo(0, 1)] == [Echo(0, 1)];
    var t := Work(U2.(echo := e), VoteFirst);
    GoOn(U2, [Echo(0, 1)], U2.(echo := e), Run(VoteFirst), t);
    var u := Work(t, VoteSecond);
    GoOn(U2, [Echo(0, 1)] + [Run(VoteFirst)], t, Run(VoteSecond), u);
    GoOn(U2, [Echo(0, 1)] + [Run(VoteFirst)] + [Run(VoteSecond)], u, Run(BindBot), U3);
  }

  lemma ReachU4()
    ensures Go(U3, ToU4, U4)
  {
    ThreeVotes(U3, 0);
  }

  const V1 := Propose(Fresh(External, 4, 1), 1, 0)
}
