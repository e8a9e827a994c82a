/** Every run of the common subset can be completed: whatever has happened, delivering the inputs that reliable
    broadcast owes, letting the agreements decide and the goroutines run leads to a settled state, in which
    every correct node has its output. */
module CommonSubsetSettling {
  import opened Quorums
  import opened CommonSubsetNode
  import opened CommonSubsetRuns

  // ---- what is done so far, which only grows, and is bounded

  datatype Fact =
    | HasInput(p: Id, i: nat)
    | HasAnswered(p: Id, i: nat)
    | HasTaken(p: Id, i: nat)
    | HasDecided(i: nat)
    | HasSwept(p: Id, k: nat)

  // How far the sweep has come.
  function Progress(x: Node): nat {
    if !x.swept then 0
    else match x.pc
      case Checking(k) => 1 + 2 * Capped(k, |x.acceptors|)
      case Rejecting(k) => 2 + 2 * Capped(k, |x.acceptors|)
      case _ => 3 + 2 * |x.acceptors|
  }

  function Capped(k: nat, n: nat): nat {
    if k < n then k else n
  }

  function Stages(n: nat): nat {
    3 + 2 * n
  }

  ghost function Everything(g: Group): set<Fact> {
    (set p, i | p in g.correct && i in Upto(g.n) :: HasInput(p, i))
    + (set p, i | p in g.correct && i in Upto(g.n) :: HasAnswered(p, i))
    + (set p, i | p in g.correct && i in Upto(g.n) :: HasTaken(p, i))
    + (set i | i in Upto(g.n) :: HasDecided(i))
    + (set p, k | p in g.correct && k in Upto(Stages(g.n)) :: HasSwept(p, k))
  }

  ghost predicate Holds(g: Group, s: System, x: Fact) {
    match x
    case HasInput(p, i) => p in s.nodes && AcceptorAt(s.nodes[p], i).input.Some?
    case HasAnswered(p, i) => p in s.nodes && AcceptorAt(s.nodes[p], i).answered
    case HasTaken(p, i) => p in s.nodes && i in s.nodes[p].taken
    case HasDecided(i) => i in s.decisions
    case HasSwept(p, k) => p in s.nodes && k < Progress(s.nodes[p])
  }

  ghost function Done(g: Group, s: System): set<Fact> {
    set x | x in Everything(g) && Holds(g, s, x)
  }

  // ---- what a step keeps

  ghost predicate NodeGrows(x: Node, y: Node) {
    && |y.acceptors| == |x.acceptors| && x.taken <= y.taken && Progress(x) <= Progress(y)
    && forall i: nat :: i < |x.acceptors| ==> AcceptorGrows(x.acceptors[i], y.acceptors[i])
  }

  ghost predicate AcceptorGrows(a: Acceptor, b: Acceptor) {
    && (a.input.Some? ==> b.input == a.input) && (a.answered ==> b.answered)
    && a.proposals <= b.proposals
  }

  ghost predicate Grows(s: System, s': System) {
    && s'.nodes.Keys == s.nodes.Keys && (forall i :: i in s.decisions ==> i in s'.decisions && s'.decisions[i] == s.decisions[i])
    && forall p :: p in s.nodes ==> NodeGrows(s.nodes[p], s'.nodes[p])
  }

  // The sweep begins once.
  lemma NoSecondSweep(decisions: Decisions, n: nat, f: nat, x: Node)
    requires NodeInv(decisions, n, f, x) && CanTake(x) && x.swept
    ensures Take(x).swept && (Take(x).pc.Waiting? || Take(x).pc.Done?)
  {
    assert x.results[x.queue[0].idx].None?;
    OneMore(x.results, x.queue[0].idx, x.queue[0].response);
  }

  lemma TakeGrows(decisions: Decisions, n: nat, f: nat, x: Node)
    requires NodeInv(decisions, n, f, x) && CanTake(x)
    ensures NodeGrows(x, Take(x))
    ensures x.queue[0].idx < n && x.queue[0].idx !in x.taken && x.queue[0].idx in Take(x).taken
  {
    if x.swept { NoSecondSweep(decisions, n, f, x); }
    assert Take(x).acceptors == x.acceptors && x.taken <= Take(x).taken;
  }

  lemma SweepGrows(decisions: Decisions, n: nat, f: nat, x: Node)
    requires NodeInv(decisions, n, f, x) && CanSweep(x)
    ensures NodeGrows(x, Sweep(x)) && Progress(x) < Progress(Sweep(x)) <= Stages(n)
  {
  }

  lemma AnswerGrows(x: Node, i: nat, d: int)
    requires CanAnswer(x, i, d)
    ensures NodeGrows(x, Answer(x, i, d)) && !AcceptorAt(x, i).answered && AcceptorAt(Answer(x, i, d), i).answered
  {
  }

  lemma InputGrows(x: Node, i: nat, v: Bytes)
    requires i < |x.acceptors|
    ensures NodeGrows(x, ReceiveInput(x, i, v)) && AcceptorAt(ReceiveInput(x, i, v), i).input.Some?
  {
  }

  lemma NodeSame(x: Node)
    ensures NodeGrows(x, x)
  {
  }

  lemma OthersGrow(s: System, p: Id, y: Node, s': System)
    requires p in s.nodes && NodeGrows(s.nodes[p], y) && s' == s.(nodes := s.nodes[p := y])
    ensures Grows(s, s')
  {
    forall q | q in s.nodes ensures NodeGrows(s.nodes[q], s'.nodes[q]) {
      if q != p { NodeSame(s.nodes[q]); }
    }
  }

  lemma DecideGrows(s: System, i: nat, d: int, s': System)
    requires i !in s.decisions && s' == s.(decisions := s.decisions[i := d])
    ensures Grows(s, s')
  {
    forall q | q in s.nodes ensures NodeGrows(s.nodes[q], s'.nodes[q]) {
      NodeSame(s.nodes[q]);
    }
  }

  lemma NodeGrowsTrans(x: Node, y: Node, z: Node)
    requires NodeGrows(x, y) && NodeGrows(y, z)
    ensures NodeGrows(x, z)
  {
    forall i: nat | i < |x.acceptors| ensures AcceptorGrows(x.acceptors[i], z.acceptors[i]) {
      assert AcceptorGrows(x.acceptors[i], y.acceptors[i]) && AcceptorGrows(y.acceptors[i], z.acceptors[i]);
    }
  }

  lemma GrowsTrans(a: System, b: System, c: System)
    requires Grows(a, b) && Grows(b, c)
    ensures Grows(a, c)
  {
    forall p | p in a.nodes ensures NodeGrows(a.nodes[p], c.nodes[p]) {
      assert NodeGrows(a.nodes[p], b.nodes[p]) && NodeGrows(b.nodes[p], c.nodes[p]);
      NodeGrowsTrans(a.nodes[p], b.nodes[p], c.nodes[p]);
    }
  }

  lemma StillHolds(g: Group, s: System, s': System, x: Fact)
    requires Grows(s, s') && Holds(g, s, x)
    ensures Holds(g, s', x)
  {
    if !x.HasDecided? {
      assert NodeGrows(s.nodes[x.p], s'.nodes[x.p]);
      if x.HasInput? || x.HasAnswered? {
        assert x.i < |s.nodes[x.p].acceptors|;
        assert AcceptorGrows(s.nodes[x.p].acceptors[x.i], s'.nodes[x.p].acceptors[x.i]);
      }
    }
  }

  // ---- one useful step

  ghost predicate Useful(g: Group, inputs: Inputs, s: System, s': System) {
    Reachable(g, inputs, s') && Grows(s, s') && Done(g, s) < Done(g, s')
  }

  lemma Extend(g: Group, inputs: Inputs, s: System, e: Event, s': System)
    requires Reachable(g, inputs, s) && Step(g, inputs, s, e, s')
    ensures Reachable(g, inputs, s')
  {
    var run :| IsRun(g, inputs, run) && s == run[|run| - 1];
    var run' := run + [s'];
    forall i | 0 <= i < |run'| - 1 ensures Next(g, inputs, run'[i], run'[i + 1]) {
      if i < |run| - 1 {
        assert Next(g, inputs, run[i], run[i + 1]);
      } else {
        assert Next(g, inputs, s, s');
      }
    }
    assert IsRun(g, inputs, run') && s' == run'[|run'| - 1];
  }

  // The event e takes away nothing and makes x hold, which did not.
  ghost predicate Gains(g: Group, inputs: Inputs, s: System, e: Event, s': System, x: Fact) {
    && Step(g, inputs, s, e, s') && Grows(s, s')
    && x in Everything(g) && Holds(g, s', x) && !Holds(g, s, x)
  }

  lemma IsUseful(g: Group, inputs: Inputs, s: System, e: Event, s': System, x: Fact)
    requires Reachable(g, inputs, s) && Gains(g, inputs, s, e, s', x)
    ensures Useful(g, inputs, s, s')
  {
    Extend(g, inputs, s, e, s');
    forall y | y in Done(g, s) ensures y in Done(g, s') {
      StillHolds(g, s, s', y);
    }
    assert x in Done(g, s') && x !in Done(g, s);
  }

  lemma Takes(g: Group, inputs: Inputs, s: System, p: Id) returns (e: Event, s': System, x: Fact)
    requires Indexed(g) && Reachable(g, inputs, s) && p in s.nodes && p in g.correct && CanTake(s.nodes[p])
    ensures Gains(g, inputs, s, e, s', x)
  {
    var i := s.nodes[p].queue[0].idx;
    ReachableNode(g, inputs, s, p);
    s' := s.(nodes := s.nodes[p := Take(s.nodes[p])]);
    TakeGrows(s.decisions, g.n, g.f, s.nodes[p]);
    OthersGrow(s, p, s'.nodes[p], s');
    InEverything(g, p, i, 0);
    e, x := Event.Taken(p), HasTaken(p, i);
  }

  lemma InEverything(g: Group, p: Id, i: nat, k: nat)
    requires p in g.correct && i < g.n && k < Stages(g.n)
    ensures HasInput(p, i) in Everything(g) && HasAnswered(p, i) in Everything(g) && HasTaken(p, i) in Everything(g)
    ensures HasDecided(i) in Everything(g) && HasSwept(p, k) in Everything(g)
  {
  }

  lemma Sweeps(g: Group, inputs: Inputs, s: System, p: Id) returns (e: Event, s': System, x: Fact)
    requires Indexed(g) && Reachable(g, inputs, s) && p in s.nodes && p in g.correct && CanSweep(s.nodes[p])
    ensures Gains(g, inputs, s, e, s', x)
  {
    var k := Progress(s.nodes[p]);
    ReachableNode(g, inputs, s, p);
    s' := s.(nodes := s.nodes[p := Sweep(s.nodes[p])]);
    SweepGrows(s.decisions, g.n, g.f, s.nodes[p]);
    OthersGrow(s, p, s'.nodes[p], s');
    ValidSize(g);
    InEverything(g, p, 0, k);
    e, x := Event.Swept(p), HasSwept(p, k);
  }

  lemma ValidSize(g: Group)
    requires g.Valid()
    ensures g.n > 0
  {
  }

  lemma Answers(g: Group, inputs: Inputs, s: System, p: Id, i: nat) returns (e: Event, s': System, x: Fact)
    requires Indexed(g) && Reachable(g, inputs, s) && p in s.nodes && p in g.correct
    requires i in s.decisions && CanAnswer(s.nodes[p], i, s.decisions[i])
    ensures Gains(g, inputs, s, e, s', x)
  {
    NodeSize(g, inputs, s, p);
    s' := s.(nodes := s.nodes[p := Answer(s.nodes[p], i, s.decisions[i])]);
    AnswerGrows(s.nodes[p], i, s.decisions[i]);
    OthersGrow(s, p, s'.nodes[p], s');
    InEverything(g, p, i, 0);
    e, x := Answered(p, i), HasAnswered(p, i);
  }

  lemma NodeSize(g: Group, inputs: Inputs, s: System, p: Id)
    requires Indexed(g) && Reachable(g, inputs, s) && p in s.nodes
    ensures |s.nodes[p].acceptors| == g.n
  {
    ReachableNode(g, inputs, s, p);
  }

  lemma Delivers(g: Group, inputs: Inputs, s: System, p: Id, i: nat, v: Bytes) returns (e: Event, s': System, x: Fact)
    requires Indexed(g) && Reachable(g, inputs, s) && p in s.nodes && p in g.correct
    requires i < g.n && v in inputs(i) && AcceptorAt(s.nodes[p], i).input.None?
    ensures Gains(g, inputs, s, e, s', x)
  {
    NodeSize(g, inputs, s, p);
    s' := s.(nodes := s.nodes[p := ReceiveInput(s.nodes[p], i, v)]);
    InputGrows(s.nodes[p], i, v);
    OthersGrow(s, p, s'.nodes[p], s');
    InEverything(g, p, i, 0);
    e, x := Input(p, i, v), HasInput(p, i);
  }

  lemma Decides(g: Group, inputs: Inputs, s: System, i: nat) returns (e: Event, s': System, x: Fact)
    requires Indexed(g) && Reachable(g, inputs, s) && i < g.n && AllProposed(s.nodes, i) && i !in s.decisions
    ensures Gains(g, inputs, s, e, s', x)
  {
    var p :| p in g.correct;
    var d := SomeProposal(g, inputs, s, p, i);
    s' := s.(decisions := s.decisions[i := d]);
    DecideGrows(s, i, d, s');
    InEverything(g, p, i, 0);
    e, x := Decide(i, d), HasDecided(i);
  }

  lemma SomeProposal(g: Group, inputs: Inputs, s: System, p: Id, i: nat) returns (d: int)
    requires Indexed(g) && Reachable(g, inputs, s) && p in g.correct && i < g.n && AllProposed(s.nodes, i)
    ensures Justified(s.nodes, i, d)
  {
    ReachableGood(g, inputs, s);
    NodeSize(g, inputs, s, p);
    ReachableNode(g, inputs, s, p);
    AcceptorFacts(s.decisions, g.n, g.f, s.nodes[p], i);
    d := AcceptorAt(s.nodes[p], i).proposals[0];
    assert Proposes(s.nodes, p, i, d);
  }

  lemma KeysCorrect(g: Group, inputs: Inputs, s: System)
    requires Indexed(g) && Reachable(g, inputs, s)
    ensures s.nodes.Keys == g.correct
  {
    ReachableGood(g, inputs, s);
  }

  // Every correct proposer's input is there to be delivered.
  ghost predicate AllBroadcast(g: Group, inputs: Inputs) {
    forall i: nat :: i in g.correct ==> inputs(i) != {}
  }

  lemma Owed(g: Group, inputs: Inputs, s: System, p: Id, i: nat) returns (e: Event, s': System, x: Fact)
    requires Indexed(g) && Reachable(g, inputs, s) && AllBroadcast(g, inputs) && p in s.nodes && p in g.correct
    requires i in g.correct && AcceptorAt(s.nodes[p], i).input.None?
    ensures Gains(g, inputs, s, e, s', x)
  {
    assert i in g.Members();
    var v :| v in inputs(i);
    e, s', x := Delivers(g, inputs, s, p, i, v);
  }

  // What reached p can reach q.
  lemma Spreads(g: Group, inputs: Inputs, s: System, p: Id, q: Id, i: nat) returns (e: Event, s': System, x: Fact)
    requires Indexed(g) && Reachable(g, inputs, s) && p in s.nodes && q in s.nodes && q in g.correct
    requires AcceptorAt(s.nodes[p], i).input.Some? && AcceptorAt(s.nodes[q], i).input.None?
    ensures Gains(g, inputs, s, e, s', x)
  {
    NodeSize(g, inputs, s, p);
    ReachableNode(g, inputs, s, p);
    e, s', x := Delivers(g, inputs, s, q, i, AcceptorAt(s.nodes[p], i).input.value);
  }

  // ---- what a state lacks that is not settled

  datatype Missing = Moving(p: Id) | Owing(p: Id, i: nat) | Spreading(p: Id, q: Id, i: nat) | Deciding(i: nat)

  ghost predicate Lacks(g: Group, s: System, m: Missing) {
    match m
    case Moving(p) => p in s.nodes && !Quiet(s.decisions, s.nodes[p])
    case Owing(p, i) => p in s.nodes && i in g.correct && AcceptorAt(s.nodes[p], i).input.None?
    case Spreading(p, q, i) => p in s.nodes && q in s.nodes && AcceptorAt(s.nodes[p], i).input.Some? && AcceptorAt(s.nodes[q], i).input.None?
    case Deciding(i) => i < g.n && AllProposed(s.nodes, i) && i !in s.decisions
  }

  lemma SomethingMissing(g: Group, s: System) returns (m: Missing)
    requires !Settled(g, s)
    ensures Lacks(g, s, m)
  {
    if p :| p in s.nodes && !Quiet(s.decisions, s.nodes[p]) {
      m := Moving(p);
    } else if i: nat :| i < g.n && AllProposed(s.nodes, i) && i !in s.decisions {
      m := Deciding(i);
    } else {
      m := InputMissing(g, s);
    }
  }

  lemma InputMissing(g: Group, s: System) returns (m: Missing)
    requires !((forall p, i :: p in s.nodes && i in g.correct ==> AcceptorAt(s.nodes[p], i).input.Some?)
               && (forall p, q, i: nat :: p in s.nodes && q in s.nodes && AcceptorAt(s.nodes[p], i).input.Some? ==>
                     AcceptorAt(s.nodes[q], i).input.Some?))
    ensures Lacks(g, s, m)
  {
    if p, i: nat :| p in s.nodes && i in g.correct && AcceptorAt(s.nodes[p], i).input.None? {
      m := Owing(p, i);
    } else {
      var p, q, i: nat :| p in s.nodes && q in s.nodes && AcceptorAt(s.nodes[p], i).input.Some? && AcceptorAt(s.nodes[q], i).input.None?;
      m := Spreading(p, q, i);
    }
  }

  // Whatever is missing, there is a useful step.
  lemma Supplied(g: Group, inputs: Inputs, s: System, m: Missing) returns (s': System)
    requires Indexed(g) && Reachable(g, inputs, s) && AllBroadcast(g, inputs) && Lacks(g, s, m)
    ensures Useful(g, inputs, s, s')
  {
    KeysCorrect(g, inputs, s);
    var e, x;
    match m {
      case Moving(p) => e, s', x := Moves(g, inputs, s, p);
      case Owing(p, i) => e, s', x := Owed(g, inputs, s, p, i);
      case Spreading(p, q, i) => e, s', x := Spreads(g, inputs, s, p, q, i);
      case Deciding(i) => e, s', x := Decides(g, inputs, s, i);
    }
    IsUseful(g, inputs, s, e, s', x);
  }

  lemma Moves(g: Group, inputs: Inputs, s: System, p: Id) returns (e: Event, s': System, x: Fact)
    requires Indexed(g) && Reachable(g, inputs, s) && p in s.nodes && p in g.correct && !Quiet(s.decisions, s.nodes[p])
    ensures Gains(g, inputs, s, e, s', x)
  {
    if CanTake(s.nodes[p]) {
      e, s', x := Takes(g, inputs, s, p);
    } else if CanSweep(s.nodes[p]) {
      e, s', x := Sweeps(g, inputs, s, p);
    } else {
      var i :| i in s.decisions && CanAnswer(s.nodes[p], i, s.decisions[i]);
      e, s', x := Answers(g, inputs, s, p, i);
    }
  }

  lemma Fewer(g: Group, s: System, s': System)
    requires Done(g, s) < Done(g, s')
    ensures |Done(g, s)| < |Done(g, s')| <= |Everything(g)|
  {
    assert Done(g, s') <= Everything(g);
    Between(Done(g, s), Done(g, s'), Everything(g));
  }

  /** From every reachable state of every run, if all correct proposers have broadcast, a settled state can be
      reached, and there every correct node has its output. */
  lemma {:induction false} CanOutput(g: Group, inputs: Inputs, s: System) returns (end: System)
    requires Indexed(g) && Reachable(g, inputs, s) && AllBroadcast(g, inputs)
    ensures Reachable(g, inputs, end) && Grows(s, end) && Settled(g, end)
    ensures forall p :: p in end.nodes ==> end.nodes[p].output.Some?
    decreases |Everything(g)| - |Done(g, s)|
  {
    if Settled(g, s) {
      end := s;
      NoDeadlock(g, inputs, s);
      SystemSame(s);
    } else {
      var m := SomethingMissing(g, s);
      var s' := Supplied(g, inputs, s, m);
      Fewer(g, s, s');
      end := CanOutput(g, inputs, s');
      GrowsTrans(s, s', end);
    }
  }

  lemma SystemSame(s: System)
    ensures Grows(s, s)
  {
    forall q | q in s.nodes ensures NodeGrows(s.nodes[q], s.nodes[q]) {
      NodeSame(s.nodes[q]);
    }
  }
}
