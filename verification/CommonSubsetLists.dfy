/** When the output lists of correct nodes can differ. Suppose at least n - f proposers broadcast something;
    the others may be silent. Then two correct nodes can output, in one run, any two lists that pick one
    broadcast input per proposer that has any. So the nodes are sure to output the same list exactly when no
    proposer broadcasts two different inputs, or too few broadcast for anybody to output at all. */
module CommonSubsetLists {
  import opened Quorums
  import opened CommonSubsetNode
  import opened CommonSubsetRuns

  type Picks = seq<Option<Bytes>>

  ghost predicate PicksFrom(g: Group, inputs: Inputs, a: Picks) {
    |a| == g.n && forall i: nat :: i < g.n && a[i].Some? ==> a[i].value in inputs(i)
  }

  // ---- a node on its way to the picks `a`, having processed the responses of the positions in `done`

  // One acceptor: with an input it accepts, without it rejects once swept.
  function Acc(v: Option<Bytes>, answered: bool, swept: bool): Acceptor {
    match v
    case Some(x) => Acceptor(v, if answered then [] else [x], true, [Accept], answered)
    case None => if swept then Acceptor(None, [], true, [Reject], answered) else FreshAcceptor()
  }

  ghost function Accs(a: Picks, done: set<nat>, m: nat): seq<Acceptor> {
    seq(|a|, j requires 0 <= j < |a| => Acc(a[j], j in done, j < m))
  }

  ghost function Part(a: Picks, done: set<nat>): Picks {
    seq(|a|, j requires 0 <= j < |a| => if j in done then a[j] else None)
  }

  ghost predicate Enough(f: nat, a: Picks, done: set<nat>) {
    |Accepted(Part(a, done))| >= |a| - f
  }

  // The first m acceptors have been swept.
  ghost function At(f: nat, a: Picks, done: set<nat>, m: nat, pc: Pc): Node {
    Node(f, Accs(a, done, m), Part(a, done), [], |done|, pc, if pc.Done? then Some(Accepted(a)) else None,
         done, Enough(f, a, done))
  }

  ghost function Rest(a: Picks, done: set<nat>): Pc {
    if |done| == |a| then Done else Waiting
  }

  ghost function Between(f: nat, a: Picks, done: set<nat>): Node {
    At(f, a, done, if Enough(f, a, done) then |a| else 0, Rest(a, done))
  }

  ghost predicate Within(a: Picks, done: set<nat>) {
    forall j :: j in done ==> j < |a|
  }

  ghost predicate AllPicked(a: Picks, done: set<nat>) {
    forall j :: j in done ==> j < |a| && a[j].Some?
  }

  // ---- counting

  lemma PartGrows(a: Picks, done: set<nat>, j: nat)
    requires j < |a| && j !in done
    ensures Part(a, done)[j := a[j]] == Part(a, done + {j})
    ensures |Accepted(Part(a, done + {j}))| == |Accepted(Part(a, done))| + (if a[j].Some? then 1 else 0)
  {
    OneMore(Part(a, done), j, a[j]);
    assert Part(a, done)[j := a[j]] == Part(a, done + {j});
  }

  lemma Everything(a: Picks, done: set<nat>)
    requires Within(a, done) && |done| == |a|
    ensures Part(a, done) == a
  {
    assert done <= Upto(|a|);
    SubsetEqual(done, Upto(|a|));
    assert Part(a, done) == a;
  }

  lemma SubsetEqual(x: set<nat>, y: set<nat>)
    requires x <= y && |x| == |y|
    ensures x == y
  {
    SubsetSize(y - x, y);
    assert |y - x| == |y| - |x|;
  }

  ghost function Picked(a: Picks): set<nat> {
    set j | j in Upto(|a|) && a[j].Some?
  }

  lemma PickedEnough(f: nat, a: Picks)
    requires |Picked(a)| >= |a| - f
    ensures Enough(f, a, Picked(a))
  {
    AcceptedSize(Part(a, Picked(a)));
    assert SomeSet(Part(a, Picked(a))) == Picked(a);
  }

  // ---- runs, step by step

  function With(s: System, p: Id, x: Node): System {
    s.(nodes := s.nodes[p := x])
  }

  lemma Extend(g: Group, inputs: Inputs, s: System, e: Event, s': System)
    requires Reachable(g, inputs, s) && Step(g, inputs, s, e, s')
    ensures Reachable(g, inputs, s')
  {
    var run :| IsRun(g, inputs, run) && s == run[|run| - 1];
    var run' := run + [s'];
    forall i | 0 <= i < |run'| - 1 ensures Next(g, inputs, run'[i], run'[i + 1]) {
      if i == |run| - 1 {
        assert Next(g, inputs, s, s');
      } else {
        assert Next(g, inputs, run[i], run[i + 1]);
      }
    }
    assert IsRun(g, inputs, run') && s' == run'[|run'| - 1];
  }

  lemma WithTwice(s: System, p: Id, x: Node, y: Node)
    ensures With(With(s, p, x), p, y) == With(s, p, y) && With(s, p, x).nodes[p] == x && With(s, p, x).decisions == s.decisions
  {
  }

  // A step of node p alone.
  lemma NodeMoves(g: Group, inputs: Inputs, s: System, p: Id, x: Node, e: Event, y: Node)
    requires p in s.nodes && Reachable(g, inputs, With(s, p, x)) && Step(g, inputs, With(s, p, x), e, With(s, p, y))
    ensures Reachable(g, inputs, With(s, p, y))
  {
    Extend(g, inputs, With(s, p, x), e, With(s, p, y));
  }

  // ---- inputs

  function AfterInputs(f: nat, a: Picks, i: nat): Node {
    FreshNode(|a|, f).(acceptors := seq(|a|, j requires 0 <= j < |a| => if j < i then Acc(a[j], false, false) else FreshAcceptor()))
  }

  lemma InputOne(f: nat, a: Picks, k: nat)
    requires k < |a|
    ensures AfterInputs(f, a, k + 1) ==
            if a[k].Some? then ReceiveInput(AfterInputs(f, a, k), k, a[k].value) else AfterInputs(f, a, k)
  {
    var x := AfterInputs(f, a, k);
    if a[k].Some? {
      assert SubmitInput(x.acceptors[k], a[k].value) == Acc(a[k], false, false);
      assert x.acceptors[k := Acc(a[k], false, false)] == AfterInputs(f, a, k + 1).acceptors;
    } else {
      assert x.acceptors == AfterInputs(f, a, k + 1).acceptors;
    }
  }

  lemma {:induction false} Inputted(g: Group, inputs: Inputs, s: System, p: Id, a: Picks, i: nat)
    requires Reachable(g, inputs, s) && p in s.nodes && PicksFrom(g, inputs, a) && i <= |a|
    requires s.nodes[p] == FreshNode(g.n, g.f)
    ensures Reachable(g, inputs, With(s, p, AfterInputs(g.f, a, i)))
  {
    if i == 0 {
      assert AfterInputs(g.f, a, 0) == FreshNode(g.n, g.f);
      assert With(s, p, s.nodes[p]) == s;
    } else {
      var k := i - 1;
      Inputted(g, inputs, s, p, a, k);
      InputOne(g.f, a, k);
      if a[k].Some? {
        NodeMoves(g, inputs, s, p, AfterInputs(g.f, a, k), Input(p, k, a[k].value), AfterInputs(g.f, a, i));
      }
    }
  }

  lemma AllInputs(f: nat, a: Picks)
    requires f < |a|
    ensures AfterInputs(f, a, |a|) == Between(f, a, {})
  {
    var x, y := AfterInputs(f, a, |a|), Between(f, a, {});
    AcceptedSize(Part(a, {}));
    assert SomeSet(Part(a, {})) == {};
    assert x.acceptors == y.acceptors && x.results == y.results;
  }

  // ---- decisions

  function Verdict(v: Option<Bytes>): int {
    if v.Some? then Accept else Reject
  }

  ghost function Verdicts(a: Picks, decided: set<nat>): Decisions {
    map i | i in decided && i < |a| :: Verdict(a[i])
  }

  lemma DecidedOne(g: Group, inputs: Inputs, s: System, p: Id, a: Picks, decided: set<nat>, i: nat)
    requires Reachable(g, inputs, s) && s.decisions == Verdicts(a, decided) && i !in decided
    requires i < |a| && Proposes(s.nodes, p, i, Verdict(a[i]))
    ensures Reachable(g, inputs, s.(decisions := Verdicts(a, decided + {i})))
  {
    assert Verdicts(a, decided + {i}) == Verdicts(a, decided)[i := Verdict(a[i])];
    Extend(g, inputs, s, Decide(i, Verdict(a[i])), s.(decisions := Verdicts(a, decided + {i})));
  }

  // Whatever node p has proposed to can be decided that way.
  lemma {:induction false} Decided(g: Group, inputs: Inputs, s: System, p: Id, a: Picks, decided: set<nat>, more: set<nat>)
    requires Reachable(g, inputs, s) && p in s.nodes && s.decisions == Verdicts(a, decided) && decided !! more
    requires forall i :: i in more ==> i < |a| && Proposes(s.nodes, p, i, Verdict(a[i]))
    ensures Reachable(g, inputs, s.(decisions := Verdicts(a, decided + more)))
    decreases |more|
  {
    if more == {} {
      assert decided + more == decided;
    } else {
      var i :| i in more;
      OneFewer(decided, more, i);
      DecidedOne(g, inputs, s, p, a, decided, i);
      Decided(g, inputs, s.(decisions := Verdicts(a, decided + {i})), p, a, decided + {i}, more - {i});
    }
  }

  // ---- the sweep

  lemma SweepOne(f: nat, a: Picks, done: set<nat>, c: nat)
    requires c < |a| && AllPicked(a, done)
    ensures var x, y := At(f, a, done, c, Checking(c)), At(f, a, done, c + 1, Checking(c + 1));
            var z := x.(pc := Rejecting(c));
            && CanSweep(x) && (if a[c].Some? then Sweep(x) == y else Sweep(x) == z && Sweep(z) == y)
  {
    AccsSwept(a, done, c);
    assert a[c].None? ==> c !in done;
    assert RejectProposal(FreshAcceptor()) == Acc(None, false, true);
  }

  lemma AccsSwept(a: Picks, done: set<nat>, c: nat)
    requires c < |a|
    ensures Accs(a, done, c + 1) == Accs(a, done, c)[c := Acc(a[c], c in done, true)]
    ensures a[c].Some? ==> Accs(a, done, c + 1) == Accs(a, done, c)
  {
    var before, after := Accs(a, done, c), Accs(a, done, c + 1);
    assert a[c].Some? ==> before[c] == after[c];
    assert forall j :: 0 <= j < |a| && j != c ==> before[j] == after[j];
  }

  lemma Continued(f: nat, a: Picks, done: set<nat>, m: nat, pc: Pc)
    requires Within(a, done) && !pc.Done?
    ensures Continue(At(f, a, done, m, pc)) == At(f, a, done, m, Rest(a, done))
  {
    if |done| == |a| {
      Everything(a, done);
    }
  }

  lemma SweptNext(g: Group, inputs: Inputs, s: System, p: Id, a: Picks, done: set<nat>, c: nat)
    requires p in s.nodes && c < |a| && AllPicked(a, done)
    requires Reachable(g, inputs, With(s, p, At(g.f, a, done, c, Checking(c))))
    ensures Reachable(g, inputs, With(s, p, At(g.f, a, done, c + 1, Checking(c + 1))))
  {
    var x, y := At(g.f, a, done, c, Checking(c)), At(g.f, a, done, c + 1, Checking(c + 1));
    var z := x.(pc := Rejecting(c));
    SweepOne(g.f, a, done, c);
    if a[c].Some? {
      NodeMoves(g, inputs, s, p, x, Swept(p), y);
    } else {
      NodeMoves(g, inputs, s, p, x, Swept(p), z);
      NodeMoves(g, inputs, s, p, z, Swept(p), y);
    }
  }

  lemma {:induction false} SweptFrom(g: Group, inputs: Inputs, s: System, p: Id, a: Picks, done: set<nat>, c: nat)
    requires p in s.nodes && c <= |a| && AllPicked(a, done)
    requires Reachable(g, inputs, With(s, p, At(g.f, a, done, c, Checking(c))))
    ensures Reachable(g, inputs, With(s, p, At(g.f, a, done, |a|, Rest(a, done))))
    decreases |a| - c
  {
    if c == |a| {
      Continued(g.f, a, done, c, Checking(c));
      NodeMoves(g, inputs, s, p, At(g.f, a, done, c, Checking(c)), Swept(p), At(g.f, a, done, c, Rest(a, done)));
    } else {
      SweptNext(g, inputs, s, p, a, done, c);
      SweptFrom(g, inputs, s, p, a, done, c + 1);
    }
  }

  // ---- one response

  // Positions are processed when they hold an input, or once the sweep is over.
  ghost predicate Due(f: nat, a: Picks, done: set<nat>, j: nat) {
    j < |a| && j !in done && Within(a, done) && (Enough(f, a, done) || (a[j].Some? && AllPicked(a, done)))
  }

  ghost function Answering(f: nat, a: Picks, done: set<nat>, j: nat): Node
    requires j < |a|
  {
    var x := Between(f, a, done);
    x.(acceptors := x.acceptors[j := Acc(a[j], true, true)], queue := [Queued(a[j], j)])
  }

  lemma StillWaiting(a: Picks, done: set<nat>, j: nat)
    requires j < |a| && j !in done && Within(a, done)
    ensures |done + {j}| == |done| + 1 <= |a| && Rest(a, done) == Waiting
  {
    assert forall i :: i in done + {j} ==> i in Upto(|a|);
    SubsetSize(done + {j}, Upto(|a|));
  }

  lemma AnswerOne(f: nat, a: Picks, done: set<nat>, j: nat)
    requires Due(f, a, done, j)
    ensures var x := Between(f, a, done);
            CanAnswer(x, j, Verdict(a[j])) && Answer(x, j, Verdict(a[j])) == Answering(f, a, done, j)
  {
  }

  lemma TakeOne(f: nat, a: Picks, done: set<nat>, j: nat)
    requires Due(f, a, done, j)
    ensures var x, done' := Answering(f, a, done, j), done + {j};
            && CanTake(x)
            && Take(x) == if !Enough(f, a, done) && Enough(f, a, done')
                          then At(f, a, done', 0, Checking(0)) else Between(f, a, done')
  {
    var x, done' := Answering(f, a, done, j), done + {j};
    var m := if Enough(f, a, done) then |a| else 0;
    StillWaiting(a, done, j);
    PartGrows(a, done, j);
    assert x.acceptors == Accs(a, done', m);
    assert x.queue[1..] == [];
    Continued(f, a, done', m, Waiting);
  }

  lemma ProcessOne(g: Group, inputs: Inputs, s: System, p: Id, a: Picks, done: set<nat>, j: nat)
    requires p in s.nodes && Ready(g.f, a, done, s.decisions, j)
    requires Reachable(g, inputs, With(s, p, Between(g.f, a, done)))
    ensures Reachable(g, inputs, With(s, p, Between(g.f, a, done + {j})))
  {
    var x, y := Between(g.f, a, done), Answering(g.f, a, done, j);
    AnswerOne(g.f, a, done, j);
    NodeMoves(g, inputs, s, p, x, Answered(p, j), y);
    TakenOne(g, inputs, s, p, a, done, j);
  }

  lemma TakenOne(g: Group, inputs: Inputs, s: System, p: Id, a: Picks, done: set<nat>, j: nat)
    requires p in s.nodes && Due(g.f, a, done, j) && Reachable(g, inputs, With(s, p, Answering(g.f, a, done, j)))
    ensures Reachable(g, inputs, With(s, p, Between(g.f, a, done + {j})))
  {
    var y := Answering(g.f, a, done, j);
    TakeOne(g.f, a, done, j);
    NodeMoves(g, inputs, s, p, y, Taken(p), Take(y));
    if !Enough(g.f, a, done) && Enough(g.f, a, done + {j}) {
      SweptFrom(g, inputs, s, p, a, done + {j}, 0);
    }
  }

  // Due, and decided accordingly.
  ghost predicate Ready(f: nat, a: Picks, done: set<nat>, decisions: Decisions, j: nat) {
    Due(f, a, done, j) && j in decisions && decisions[j] == Verdict(a[j])
  }

  lemma StaysDue(f: nat, a: Picks, done: set<nat>, j: nat, i: nat)
    requires Due(f, a, done, j) && Due(f, a, done, i) && i != j
    ensures Due(f, a, done + {j}, i)
  {
    PartGrows(a, done, j);
  }

  lemma OneFewer(done: set<nat>, more: set<nat>, j: nat)
    requires j in more
    ensures done + {j} + (more - {j}) == done + more && |more - {j}| < |more|
  {
  }

  lemma ProcessSome(g: Group, inputs: Inputs, s: System, p: Id, a: Picks, done: set<nat>, more: set<nat>)
    returns (done': set<nat>, rest: set<nat>)
    requires p in s.nodes && Reachable(g, inputs, With(s, p, Between(g.f, a, done))) && more != {}
    requires AllReady(g.f, a, done, s.decisions, more)
    ensures done' + rest == done + more && |rest| < |more|
    ensures Reachable(g, inputs, With(s, p, Between(g.f, a, done'))) && AllReady(g.f, a, done', s.decisions, rest)
  {
    var j :| j in more;
    done', rest := done + {j}, more - {j};
    OneFewer(done, more, j);
    OthersReady(g.f, a, done, s.decisions, more, j);
    ProcessOne(g, inputs, s, p, a, done, j);
  }

  lemma {:induction false} ProcessAll(g: Group, inputs: Inputs, s: System, p: Id, a: Picks, done: set<nat>, more: set<nat>, all: set<nat>)
    requires p in s.nodes && Reachable(g, inputs, With(s, p, Between(g.f, a, done)))
    requires AllReady(g.f, a, done, s.decisions, more) && all == done + more
    ensures Reachable(g, inputs, With(s, p, Between(g.f, a, all)))
    decreases |more|
  {
    if more == {} {
      assert all == done;
    } else {
      var done', rest := ProcessSome(g, inputs, s, p, a, done, more);
      ProcessAll(g, inputs, s, p, a, done', rest, all);
    }
  }

  ghost predicate AllReady(f: nat, a: Picks, done: set<nat>, decisions: Decisions, more: set<nat>) {
    forall j :: j in more ==> Ready(f, a, done, decisions, j)
  }

  lemma OthersReady(f: nat, a: Picks, done: set<nat>, decisions: Decisions, more: set<nat>, j: nat)
    requires AllReady(f, a, done, decisions, more) && j in more
    ensures Ready(f, a, done, decisions, j) && AllReady(f, a, done + {j}, decisions, more - {j})
  {
    assert Ready(f, a, done, decisions, j);
    forall i | i in more - {j} ensures Ready(f, a, done + {j}, decisions, i) {
      assert Ready(f, a, done, decisions, i);
      StaysDue(f, a, done, j, i);
    }
  }

  // ---- two nodes, one after the other

  ghost function Silent(a: Picks): set<nat> {
    set j | j in Upto(|a|) && a[j].None?
  }

  // Everything in `decided` is decided as node with the picks `a` would.
  ghost predicate Settles(decisions: Decisions, a: Picks, decided: set<nat>) {
    forall j :: j in decided ==> j < |a| && j in decisions && decisions[j] == Verdict(a[j])
  }

  lemma PickedReady(f: nat, a: Picks, decisions: Decisions)
    requires Settles(decisions, a, Picked(a))
    ensures AllReady(f, a, {}, decisions, Picked(a))
  {
  }

  lemma SilentReady(f: nat, a: Picks, decisions: Decisions)
    requires Enough(f, a, Picked(a)) && Settles(decisions, a, Silent(a))
    ensures AllReady(f, a, Picked(a), decisions, Silent(a))
  {
  }

  // Picks of the same pattern agree on what is to be decided.
  lemma VerdictsSettle(a: Picks, b: Picks, decided: set<nat>, part: set<nat>)
    requires |a| == |b| && (forall i: nat :: i < |a| ==> a[i].Some? == b[i].Some?)
    requires part <= decided <= Upto(|a|)
    ensures Settles(Verdicts(a, decided), b, part)
  {
  }

  lemma PickedOrSilent(a: Picks)
    ensures Picked(a) + Silent(a) == Upto(|a|) && Picked(a) !! Silent(a)
  {
  }

  // From its inputs to the end of its picks.
  lemma PicksProcessed(g: Group, inputs: Inputs, s: System, p: Id, a: Picks)
    requires Reachable(g, inputs, s) && p in s.nodes && s.nodes[p] == Between(g.f, a, {})
    requires Settles(s.decisions, a, Picked(a))
    ensures Reachable(g, inputs, With(s, p, Between(g.f, a, Picked(a))))
  {
    assert With(s, p, s.nodes[p]) == s;
    PickedReady(g.f, a, s.decisions);
    ProcessAll(g, inputs, s, p, a, {}, Picked(a), Picked(a));
  }

  // And on through the silent positions to its output.
  lemma SilentProcessed(g: Group, inputs: Inputs, s: System, p: Id, a: Picks)
    requires Reachable(g, inputs, s) && p in s.nodes && s.nodes[p] == Between(g.f, a, Picked(a)) && Enough(g.f, a, Picked(a))
    requires Settles(s.decisions, a, Silent(a))
    ensures Reachable(g, inputs, With(s, p, Between(g.f, a, Picked(a) + Silent(a))))
  {
    assert With(s, p, s.nodes[p]) == s;
    SilentReady(g.f, a, s.decisions);
    ProcessAll(g, inputs, s, p, a, Picked(a), Silent(a), Picked(a) + Silent(a));
  }

  lemma Outputs(f: nat, a: Picks)
    ensures Between(f, a, Picked(a) + Silent(a)).output == Some(Accepted(a))
  {
    PickedOrSilent(a);
  }

  // A node with all its inputs has proposed accept where it has one; swept, it has rejected the others.
  lemma ProposesPicked(s: System, p: Id, f: nat, a: Picks, i: nat)
    requires p in s.nodes && s.nodes[p] == Between(f, a, {}) && i in Picked(a)
    ensures Proposes(s.nodes, p, i, Accept)
  {
    assert Accept in s.nodes[p].acceptors[i].proposals;
  }

  lemma ProposesSilent(s: System, p: Id, f: nat, a: Picks, i: nat)
    requires p in s.nodes && s.nodes[p] == Between(f, a, Picked(a)) && Enough(f, a, Picked(a)) && i in Silent(a)
    ensures Proposes(s.nodes, p, i, Reject)
  {
    assert Reject in s.nodes[p].acceptors[i].proposals;
  }

  lemma InitialReachable(g: Group, inputs: Inputs)
    ensures Reachable(g, inputs, Initial(g))
  {
    var run := [Initial(g)];
    assert IsRun(g, inputs, run) && Initial(g) == run[|run| - 1];
  }

  // Both nodes have their inputs, and the first has been through its picks.
  lemma FirstHalf(g: Group, inputs: Inputs, p: Id, q: Id, a: Picks, b: Picks) returns (s: System)
    requires Indexed(g) && p in g.correct && q in g.correct && p != q && g.f < g.n
    requires PicksFrom(g, inputs, a) && PicksFrom(g, inputs, b)
    ensures Reachable(g, inputs, s) && p in s.nodes && q in s.nodes && s.decisions == Verdicts(a, Picked(a))
    ensures s.nodes[p] == Between(g.f, a, Picked(a)) && s.nodes[q] == Between(g.f, b, {})
  {
    InitialReachable(g, inputs);
    var s0 := Initial(g);
    Inputted(g, inputs, s0, p, a, g.n);
    AllInputs(g.f, a);
    var s1 := With(s0, p, Between(g.f, a, {}));
    Inputted(g, inputs, s1, q, b, g.n);
    AllInputs(g.f, b);
    var s2 := With(s1, q, Between(g.f, b, {}));
    forall i | i in Picked(a) ensures i < |a| && Proposes(s2.nodes, p, i, Verdict(a[i])) {
      ProposesPicked(s2, p, g.f, a, i);
    }
    assert Verdicts(a, {}) == map[];
    Decided(g, inputs, s2, p, a, {}, Picked(a));
    assert {} + Picked(a) == Picked(a);
    var s3 := s2.(decisions := Verdicts(a, Picked(a)));
    VerdictsSettle(a, a, Picked(a), Picked(a));
    PicksProcessed(g, inputs, s3, p, a);
    s := With(s3, p, Between(g.f, a, Picked(a)));
  }

  // Once the first node has rejected the silent positions, everything can be decided.
  lemma AllDecided(g: Group, inputs: Inputs, s: System, p: Id, a: Picks)
    requires Reachable(g, inputs, s) && p in s.nodes && s.decisions == Verdicts(a, Picked(a))
    requires s.nodes[p] == Between(g.f, a, Picked(a)) && Enough(g.f, a, Picked(a))
    ensures Reachable(g, inputs, s.(decisions := Verdicts(a, Upto(|a|))))
  {
    forall i | i in Silent(a) ensures i < |a| && Proposes(s.nodes, p, i, Verdict(a[i])) {
      ProposesSilent(s, p, g.f, a, i);
    }
    PickedOrSilent(a);
    Decided(g, inputs, s, p, a, Picked(a), Silent(a));
  }

  /** Two correct nodes can output any two lists that pick from the same positions, at least n - f of them. */
  lemma AnyTwoLists(g: Group, inputs: Inputs, p: Id, q: Id, a: Picks, b: Picks) returns (s: System)
    requires Indexed(g) && p in g.correct && q in g.correct && p != q
    requires PicksFrom(g, inputs, a) && PicksFrom(g, inputs, b) && Picked(a) == Picked(b) && |Picked(a)| >= g.n - g.f
    ensures Reachable(g, inputs, s) && p in s.nodes && q in s.nodes
    ensures s.nodes[p].output == Some(Accepted(a)) && s.nodes[q].output == Some(Accepted(b))
  {
    PickedEnough(g.f, a);
    PickedEnough(g.f, b);
    SamePattern(a, b);
    var s1 := FirstHalf(g, inputs, p, q, a, b);
    AllDecided(g, inputs, s1, p, a);
    var s2 := s1.(decisions := Verdicts(a, Upto(|a|)));
    PickedOrSilent(a);
    VerdictsSettle(a, a, Upto(|a|), Silent(a));
    VerdictsSettle(a, b, Upto(|a|), Picked(b));
    VerdictsSettle(a, b, Upto(|a|), Silent(b));
    SilentProcessed(g, inputs, s2, p, a);
    var s3 := With(s2, p, Between(g.f, a, Picked(a) + Silent(a)));
    AllProcessed(g, inputs, s3, q, b);
    s := With(s3, q, Between(g.f, b, Picked(b) + Silent(b)));
    Outputs(g.f, a);
    Outputs(g.f, b);
  }

  // The whole way, when everything is decided already.
  lemma AllProcessed(g: Group, inputs: Inputs, s: System, q: Id, b: Picks)
    requires Reachable(g, inputs, s) && q in s.nodes && s.nodes[q] == Between(g.f, b, {}) && Enough(g.f, b, Picked(b))
    requires Settles(s.decisions, b, Picked(b)) && Settles(s.decisions, b, Silent(b))
    ensures Reachable(g, inputs, With(s, q, Between(g.f, b, Picked(b) + Silent(b))))
  {
    PicksProcessed(g, inputs, s, q, b);
    var x, y := Between(g.f, b, Picked(b)), Between(g.f, b, Picked(b) + Silent(b));
    WithTwice(s, q, x, y);
    SilentProcessed(g, inputs, With(s, q, x), q, b);
  }

  lemma SamePattern(a: Picks, b: Picks)
    requires |a| == |b| && Picked(a) == Picked(b)
    ensures Silent(a) == Silent(b) && forall i: nat :: i < |a| ==> a[i].Some? == b[i].Some?
  {
    forall i: nat | i < |a| ensures a[i].Some? == b[i].Some? {
      assert i in Picked(a) <==> a[i].Some?;
      assert i in Picked(b) <==> b[i].Some?;
    }
  }

  // ---- the condition

  // All correct nodes output the same list, in every run.
  ghost predicate AlwaysSameList(g: Group, inputs: Inputs) {
    forall s, p, q :: Reachable(g, inputs, s) && BothOutput(s, p, q) ==> s.nodes[p].output == s.nodes[q].output
  }

  ghost predicate BothOutput(s: System, p: Id, q: Id) {
    p in s.nodes && q in s.nodes && s.nodes[p].output.Some? && s.nodes[q].output.Some?
  }

  ghost predicate OneInputEach(g: Group, inputs: Inputs) {
    forall i: nat, v, w :: i < g.n && v in inputs(i) && w in inputs(i) ==> v == w
  }

  ghost function Broadcasting(g: Group, inputs: Inputs): set<nat> {
    set i | i in Upto(g.n) && inputs(i) != {}
  }

  // Nobody outputs without n - f proposers that broadcast.
  lemma OutputNeedsInputs(g: Group, inputs: Inputs, s: System, p: Id)
    requires Indexed(g) && Reachable(g, inputs, s) && p in s.nodes && s.nodes[p].output.Some?
    ensures |Broadcasting(g, inputs)| >= g.n - g.f
  {
    var x := s.nodes[p];
    ReachableNode(g, inputs, s, p);
    ReachableInputs(g, inputs, s, p);
    OutputShape(s.decisions, g.n, g.f, x);
    EnoughOnceDecided(g, inputs, s);
    AcceptedBroadcast(g, inputs, s.decisions, x);
    SubsetSize(AcceptedBy(g.n, s.decisions), Broadcasting(g, inputs));
  }

  lemma ReachableInputs(g: Group, inputs: Inputs, s: System, p: Id)
    requires Indexed(g) && Reachable(g, inputs, s) && p in s.nodes
    ensures InputsIn(inputs, s.nodes[p])
  {
    ReachableGood(g, inputs, s);
  }

  lemma AcceptedBroadcast(g: Group, inputs: Inputs, decisions: Decisions, x: Node)
    requires NodeInv(decisions, g.n, g.f, x) && x.output.Some? && InputsIn(inputs, x)
    ensures AcceptedBy(g.n, decisions) <= Broadcasting(g, inputs)
  {
    forall i | i in AcceptedBy(g.n, decisions) ensures i in Broadcasting(g, inputs) {
      AcceptedInput(decisions, g.n, g.f, x, i);
    }
  }

  // One of everything broadcast.
  lemma {:induction false} SomePicks(g: Group, inputs: Inputs, k: nat) returns (a: Picks)
    requires k <= g.n
    ensures |a| == k && forall i: nat :: i < k ==> if inputs(i) == {} then a[i].None? else a[i].Some? && a[i].value in inputs(i)
  {
    if k == 0 {
      a := [];
    } else {
      var front := SomePicks(g, inputs, k - 1);
      if inputs(k - 1) == {} {
        a := front + [None];
      } else {
        var v :| v in inputs(k - 1);
        a := front + [Some(v)];
      }
    }
  }

  lemma TwoInputsTwoLists(g: Group, inputs: Inputs, p: Id, q: Id, i: nat, v: Bytes, w: Bytes)
    requires Indexed(g) && p in g.correct && q in g.correct && p != q && |Broadcasting(g, inputs)| >= g.n - g.f
    requires i < g.n && v in inputs(i) && w in inputs(i) && v != w
    ensures !AlwaysSameList(g, inputs)
  {
    var some := SomePicks(g, inputs, g.n);
    var a, b := some[i := Some(v)], some[i := Some(w)];
    assert Picked(a) == Broadcasting(g, inputs) && Picked(b) == Broadcasting(g, inputs);
    var s := AnyTwoLists(g, inputs, p, q, a, b);
    assert a[i] != b[i];
    AcceptedInjective(a, b);
    assert BothOutput(s, p, q);
  }

  /** With two correct nodes or more: the lists agree in every run if and only if no proposer broadcasts two
      different inputs, or fewer than n - f broadcast anything and nobody outputs. */
  lemma SameListExactly(g: Group, inputs: Inputs)
    requires Indexed(g) && |g.correct| >= 2
    ensures AlwaysSameList(g, inputs) <==> OneInputEach(g, inputs) || |Broadcasting(g, inputs)| < g.n - g.f
  {
    if OneInputEach(g, inputs) {
      forall s, x, y | Reachable(g, inputs, s) && BothOutput(s, x, y) ensures s.nodes[x].output == s.nodes[y].output {
        SameOutput(g, inputs, s, x, y);
      }
    } else if |Broadcasting(g, inputs)| < g.n - g.f {
      forall s, x, y | Reachable(g, inputs, s) ensures !BothOutput(s, x, y) {
        if BothOutput(s, x, y) {
          OutputNeedsInputs(g, inputs, s, x);
        }
      }
    } else {
      var i: nat, v, w :| i < g.n && v in inputs(i) && w in inputs(i) && v != w;
      var p :| p in g.correct;
      assert |g.correct - {p}| == |g.correct| - 1;
      var q :| q in g.correct - {p};
      TwoInputsTwoLists(g, inputs, p, q, i, v, w);
    }
  }
}
