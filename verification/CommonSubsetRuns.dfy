/** The BKR common subset among a whole group, over the contracts of reliable broadcast and binary
    agreement: every correct node proposes at most once to each agreement, all outputs accept the same
    proposers and hold at least n - f entries, and no settled state leaves a correct node waiting. */
module CommonSubsetRuns {
  import opened Quorums
  import opened CommonSubsetNode

  // `inputs(i)` is what reliable broadcast delivers in the name of proposer i, to any node. A correct
  // proposer broadcasts once; a faulty one may broadcast several times under the same BKR id, each in
  // a broadcast instance of its own.
  type Inputs = nat -> set<Bytes>

  datatype System = System(nodes: map<Id, Node>, decisions: Decisions)

  datatype Event =
    | Input(p: Id, i: nat, v: Bytes)
    | Decide(i: nat, d: int)
    | Answered(p: Id, i: nat)
    | Taken(p: Id)
    | Swept(p: Id)

  ghost predicate Proposes(nodes: map<Id, Node>, p: Id, i: nat, v: int) {
    p in nodes && i < |nodes[p].acceptors| && v in nodes[p].acceptors[i].proposals
  }

  // Binary agreement decides once, and only what some correct node proposed to it.
  ghost predicate Justified(nodes: map<Id, Node>, i: nat, v: int) {
    exists p :: Proposes(nodes, p, i, v)
  }

  ghost predicate Step(g: Group, inputs: Inputs, s: System, e: Event, s': System) {
    match e
    case Input(p, i, v) =>
      p in s.nodes && i < |s.nodes[p].acceptors| && v in inputs(i)
      && s' == s.(nodes := s.nodes[p := ReceiveInput(s.nodes[p], i, v)])
    case Decide(i, d) =>
      i !in s.decisions && Justified(s.nodes, i, d) && s' == s.(decisions := s.decisions[i := d])
    case Answered(p, i) =>
      p in s.nodes && i in s.decisions && CanAnswer(s.nodes[p], i, s.decisions[i])
      && s' == s.(nodes := s.nodes[p := Answer(s.nodes[p], i, s.decisions[i])])
    case Taken(p) =>
      p in s.nodes && CanTake(s.nodes[p]) && s' == s.(nodes := s.nodes[p := Take(s.nodes[p])])
    case Swept(p) =>
      p in s.nodes && CanSweep(s.nodes[p]) && s' == s.(nodes := s.nodes[p := Sweep(s.nodes[p])])
  }

  ghost predicate Next(g: Group, inputs: Inputs, s: System, s': System) {
    exists e :: Step(g, inputs, s, e, s')
  }

  ghost function Initial(g: Group): System {
    System(map p | p in g.correct :: FreshNode(g.n, g.f), map[])
  }

  ghost predicate IsRun(g: Group, inputs: Inputs, run: seq<System>) {
    && |run| > 0 && run[0] == Initial(g)
    && forall i :: 0 <= i < |run| - 1 ==> Next(g, inputs, run[i], run[i + 1])
  }

  ghost predicate Reachable(g: Group, inputs: Inputs, s: System) {
    exists run :: IsRun(g, inputs, run) && s == run[|run| - 1]
  }

  // The members are the positions of the participant list.
  ghost predicate Indexed(g: Group) {
    g.Valid() && g.Members() == Upto(g.n)
  }

  ghost function Upto(n: nat): (r: set<nat>)
    ensures forall i :: i in r <==> 0 <= i < n
    ensures |r| == n
  {
    if n == 0 then {} else Upto(n - 1) + {n - 1}
  }

  // ---- the invariant

  ghost predicate NodeOk(g: Group, decisions: Decisions, x: Node) {
    NodeInv(decisions, g.n, g.f, x)
  }

  ghost predicate NodesOk(g: Group, nodes: map<Id, Node>, decisions: Decisions) {
    nodes.Keys == g.correct && forall p :: p in nodes ==> NodeOk(g, decisions, nodes[p])
  }

  ghost predicate DecisionsOk(nodes: map<Id, Node>, decisions: Decisions) {
    forall i :: i in decisions ==> Justified(nodes, i, decisions[i])
  }

  ghost predicate InputsOk(inputs: Inputs, nodes: map<Id, Node>) {
    forall p :: p in nodes ==> InputsIn(inputs, nodes[p])
  }

  ghost predicate Good(g: Group, inputs: Inputs, s: System) {
    Indexed(g) && NodesOk(g, s.nodes, s.decisions) && DecisionsOk(s.nodes, s.decisions) && InputsOk(inputs, s.nodes)
  }

  // What a node's own step keeps for the others: proposals and inputs are never withdrawn.
  ghost predicate Kept(x: Node, y: Node) {
    && |y.acceptors| == |x.acceptors|
    && forall i: nat :: i < |x.acceptors| ==>
         && x.acceptors[i].proposals <= y.acceptors[i].proposals
         && (y.acceptors[i].input.Some? && x.acceptors[i].input.Some? ==> y.acceptors[i].input == x.acceptors[i].input)
  }

  lemma JustifiedKept(nodes: map<Id, Node>, p: Id, y: Node, i: nat, v: int)
    requires p in nodes && Kept(nodes[p], y) && Justified(nodes, i, v)
    ensures Justified(nodes[p := y], i, v)
  {
    var q :| Proposes(nodes, q, i, v);
    assert Proposes(nodes[p := y], q, i, v);
  }

  ghost predicate InputsIn(inputs: Inputs, x: Node) {
    forall i: nat :: i < |x.acceptors| && x.acceptors[i].input.Some? ==> x.acceptors[i].input.value in inputs(i)
  }

  lemma NodeReplaced(g: Group, nodes: map<Id, Node>, decisions: Decisions, p: Id, y: Node, nodes': map<Id, Node>)
    requires NodesOk(g, nodes, decisions) && p in nodes && NodeOk(g, decisions, y) && nodes' == nodes[p := y]
    ensures NodesOk(g, nodes', decisions)
  {
    forall q | q in nodes' ensures NodeOk(g, decisions, nodes'[q]) {
      assert q != p ==> NodeOk(g, decisions, nodes[q]);
    }
  }

  lemma DecisionsKept(nodes: map<Id, Node>, decisions: Decisions, p: Id, y: Node)
    requires DecisionsOk(nodes, decisions) && p in nodes && Kept(nodes[p], y)
    ensures DecisionsOk(nodes[p := y], decisions)
  {
    forall i | i in decisions ensures Justified(nodes[p := y], i, decisions[i]) {
      JustifiedKept(nodes, p, y, i, decisions[i]);
    }
  }

  lemma InputsKept(inputs: Inputs, nodes: map<Id, Node>, p: Id, y: Node)
    requires InputsOk(inputs, nodes) && InputsIn(inputs, y)
    ensures InputsOk(inputs, nodes[p := y])
  {
  }

  lemma StepKept(g: Group, inputs: Inputs, s: System, e: Event, s': System)
    requires Step(g, inputs, s, e, s') && !e.Decide? && InputsIn(inputs, s.nodes[e.p])
    ensures Kept(s.nodes[e.p], s'.nodes[e.p]) && InputsIn(inputs, s'.nodes[e.p])
  {
  }

  lemma NodeStep(g: Group, inputs: Inputs, s: System, e: Event, s': System)
    requires Step(g, inputs, s, e, s') && !e.Decide? && NodeOk(g, s.decisions, s.nodes[e.p])
    ensures NodeOk(g, s.decisions, s'.nodes[e.p])
  {
    var x := s.nodes[e.p];
    match e
    case Input(p, i, v) => InputInv(s.decisions, g.n, g.f, x, i, v);
    case Answered(p, i) => AnswerInv(s.decisions, g.n, g.f, x, i);
    case Taken(p) => TakeInv(s.decisions, g.n, g.f, x);
    case Swept(p) => SweepInv(s.decisions, g.n, g.f, x);
  }

  lemma DecideStep(g: Group, nodes: map<Id, Node>, decisions: Decisions, i: nat, d: int)
    requires NodesOk(g, nodes, decisions) && i !in decisions
    ensures NodesOk(g, nodes, decisions[i := d])
  {
    forall p | p in nodes ensures NodeOk(g, decisions[i := d], nodes[p]) {
      assert NodeOk(g, decisions, nodes[p]);
      DecideInv(decisions, g.n, g.f, nodes[p], i, d);
    }
  }

  lemma DecisionAdded(nodes: map<Id, Node>, decisions: Decisions, i: nat, d: int)
    requires DecisionsOk(nodes, decisions) && Justified(nodes, i, d)
    ensures DecisionsOk(nodes, decisions[i := d])
  {
  }

  lemma NodeGood(g: Group, inputs: Inputs, s: System, e: Event, s': System)
    requires NodesOk(g, s.nodes, s.decisions) && Step(g, inputs, s, e, s') && !e.Decide?
    ensures NodesOk(g, s'.nodes, s.decisions)
  {
    assert NodeOk(g, s.decisions, s.nodes[e.p]);
    NodeStep(g, inputs, s, e, s');
    NodeReplaced(g, s.nodes, s.decisions, e.p, s'.nodes[e.p], s'.nodes);
  }

  lemma SharedGood(g: Group, inputs: Inputs, s: System, e: Event, s': System)
    requires DecisionsOk(s.nodes, s.decisions) && InputsOk(inputs, s.nodes)
    requires Step(g, inputs, s, e, s') && !e.Decide?
    ensures DecisionsOk(s'.nodes, s.decisions) && InputsOk(inputs, s'.nodes)
  {
    assert InputsIn(inputs, s.nodes[e.p]);
    StepKept(g, inputs, s, e, s');
    DecisionsKept(s.nodes, s.decisions, e.p, s'.nodes[e.p]);
    InputsKept(inputs, s.nodes, e.p, s'.nodes[e.p]);
  }

  lemma StepGood(g: Group, inputs: Inputs, s: System, e: Event, s': System)
    requires Good(g, inputs, s) && Step(g, inputs, s, e, s')
    ensures Good(g, inputs, s')
  {
    if e.Decide? {
      DecideStep(g, s.nodes, s.decisions, e.i, e.d);
      DecisionAdded(s.nodes, s.decisions, e.i, e.d);
    } else {
      NodeGood(g, inputs, s, e, s');
      SharedGood(g, inputs, s, e, s');
    }
  }

  lemma {:induction false} RunGood(g: Group, inputs: Inputs, run: seq<System>, i: nat)
    requires Indexed(g) && IsRun(g, inputs, run) && i < |run|
    ensures Good(g, inputs, run[i])
    decreases i
  {
    if i == 0 {
      FreshInv(g.n, g.f);
    } else {
      var j := i - 1;
      RunGood(g, inputs, run, j);
      assert Next(g, inputs, run[j], run[j + 1]);
      var e :| Step(g, inputs, run[j], e, run[j + 1]);
      StepGood(g, inputs, run[j], e, run[j + 1]);
    }
  }

  lemma ReachableGood(g: Group, inputs: Inputs, s: System)
    requires Indexed(g) && Reachable(g, inputs, s)
    ensures Good(g, inputs, s)
  {
    var run :| IsRun(g, inputs, run) && s == run[|run| - 1];
    var last := |run| - 1;
    assert s == run[last];
    RunGood(g, inputs, run, last);
  }

  lemma ReachableNode(g: Group, inputs: Inputs, s: System, p: Id)
    requires Indexed(g) && Reachable(g, inputs, s) && p in s.nodes
    ensures NodeInv(s.decisions, g.n, g.f, s.nodes[p]) && InputsIn(inputs, s.nodes[p])
  {
    ReachableGood(g, inputs, s);
    assert NodeOk(g, s.decisions, s.nodes[p]);
  }

  // ---- proposals

  function AcceptorAt(x: Node, i: nat): Acceptor {
    if i < |x.acceptors| then x.acceptors[i] else FreshAcceptor()
  }

  // Each agreement gets at most one proposal from a correct node, and exactly one once its reject
  // sweep is over, whatever arrives between the check and the reject; an input that is held can answer an
  // accept decision, whatever was proposed.
  lemma ProposedExactlyOnce(g: Group, inputs: Inputs, s: System, p: Id, i: nat)
    requires Indexed(g) && Reachable(g, inputs, s) && p in s.nodes && i < g.n
    ensures var x := s.nodes[p];
            var a := AcceptorAt(x, i);
            && |a.proposals| <= 1
            && (x.swept && (x.pc.Waiting? || x.pc.Done?) ==> |a.proposals| == 1)
            && (a.input.Some? && !a.answered ==> a.inputChan == [a.input.value])
            && (a.input.Some? && !a.answered && i in s.decisions ==> CanAnswer(x, i, s.decisions[i]))
  {
    ReachableNode(g, inputs, s, p);
    AcceptorFacts(s.decisions, g.n, g.f, s.nodes[p], i);
  }

  lemma AcceptorFacts(decisions: Decisions, n: nat, f: nat, x: Node, i: nat)
    requires NodeInv(decisions, n, f, x) && i < n
    ensures AcceptorOk(AcceptorAt(x, i))
    ensures x.swept && (x.pc.Waiting? || x.pc.Done?) ==> AcceptorAt(x, i).proposed
  {
  }

  // ---- outputs

  ghost function AcceptedBy(n: nat, decisions: Decisions): set<nat> {
    set i | i in Upto(n) && i in decisions && decisions[i] == Accept
  }

  lemma PresentWhenAccepted(decisions: Decisions, n: nat, f: nat, x: Node)
    requires NodeInv(decisions, n, f, x)
    ensures SomeSet(x.results) <= AcceptedBy(n, decisions)
    ensures forall i: nat :: i < n && i in x.taken ==> (i in SomeSet(x.results) <==> i in AcceptedBy(n, decisions))
  {
  }

  // A reject decision needs a correct node that had already seen n - f acceptances.
  lemma EnoughAccepted(g: Group, inputs: Inputs, s: System, i: nat)
    requires Indexed(g) && Reachable(g, inputs, s) && i < g.n && i in s.decisions && s.decisions[i] != Accept
    ensures |AcceptedBy(g.n, s.decisions)| >= g.n - g.f
  {
    ReachableGood(g, inputs, s);
    var q :| Proposes(s.nodes, q, i, s.decisions[i]);
    SweptAccepted(g, inputs, s, q, i);
  }

  lemma SweptAccepted(g: Group, inputs: Inputs, s: System, q: Id, i: nat)
    requires Indexed(g) && Reachable(g, inputs, s) && q in s.nodes && i < g.n
    requires s.nodes[q].swept || exists v :: v in AcceptorAt(s.nodes[q], i).proposals && v != Accept
    ensures s.nodes[q].swept
    ensures |SomeSet(s.nodes[q].results)| >= g.n - g.f && |AcceptedBy(g.n, s.decisions)| >= g.n - g.f
  {
    ReachableGood(g, inputs, s);
    var x := s.nodes[q];
    assert NodeOk(g, s.decisions, x);
    assert AcceptorOk(AcceptorAt(x, i));
    PresentWhenAccepted(s.decisions, g.n, g.f, x);
    AcceptedSize(x.results);
    SubsetSize(SomeSet(x.results), AcceptedBy(g.n, s.decisions));
  }

  lemma AllTaken(decisions: Decisions, n: nat, f: nat, x: Node)
    requires NodeInv(decisions, n, f, x) && |x.taken| == n
    ensures Upto(n) <= x.taken
  {
    if !(Upto(n) <= x.taken) {
      var i :| i in Upto(n) && i !in x.taken;
      SubsetSize(x.taken, Upto(n) - {i});
    }
  }

  lemma OutputShape(decisions: Decisions, n: nat, f: nat, x: Node)
    requires NodeInv(decisions, n, f, x) && x.output.Some?
    ensures x.output == Some(Accepted(x.results)) && |x.results| == n
    ensures Upto(n) <= x.taken && Upto(n) <= decisions.Keys
    ensures SomeSet(x.results) == AcceptedBy(n, decisions)
  {
    AllTaken(decisions, n, f, x);
    PresentWhenAccepted(decisions, n, f, x);
  }

  lemma ReachableEnough(g: Group, inputs: Inputs, s: System, i: nat)
    requires Indexed(g) && Reachable(g, inputs, s) && i < g.n && i in s.decisions && s.decisions[i] != Accept
    ensures |AcceptedBy(g.n, s.decisions)| >= g.n - g.f
  {
    ReachableGood(g, inputs, s);
    EnoughAccepted(g, inputs, s, i);
  }

  lemma EnoughOnceDecided(g: Group, inputs: Inputs, s: System)
    requires Indexed(g) && Reachable(g, inputs, s) && Upto(g.n) <= s.decisions.Keys
    ensures |AcceptedBy(g.n, s.decisions)| >= g.n - g.f
  {
    if i :| i in Upto(g.n) && s.decisions[i] != Accept {
      ReachableEnough(g, inputs, s, i);
    } else {
      assert AcceptedBy(g.n, s.decisions) == Upto(g.n);
    }
  }

  // Every output has at least n - f entries.
  lemma OutputSize(g: Group, inputs: Inputs, s: System, p: Id)
    requires Indexed(g) && Reachable(g, inputs, s) && p in s.nodes && s.nodes[p].output.Some?
    ensures |s.nodes[p].output.value| >= g.n - g.f
  {
    ReachableNode(g, inputs, s, p);
    OutputShape(s.decisions, g.n, g.f, s.nodes[p]);
    AcceptedSize(s.nodes[p].results);
    EnoughOnceDecided(g, inputs, s);
  }

  // Any two outputs accept the same proposers; the lists are equal exactly when the two nodes took
  // the same first input from each accepted proposer, whatever order the responses came in.
  lemma OutputsMatch(g: Group, inputs: Inputs, s: System, p: Id, q: Id)
    requires Indexed(g) && Reachable(g, inputs, s) && p in s.nodes && q in s.nodes
    requires s.nodes[p].output.Some? && s.nodes[q].output.Some?
    ensures SomeSet(s.nodes[p].results) == SomeSet(s.nodes[q].results)
    ensures s.nodes[p].output == s.nodes[q].output <==>
              SameInputs(AcceptedBy(g.n, s.decisions), s.nodes[p], s.nodes[q])
  {
    ReachableNode(g, inputs, s, p);
    ReachableNode(g, inputs, s, q);
    OutputsCompared(s.decisions, g.n, g.f, s.nodes[p], s.nodes[q]);
  }

  ghost predicate SameInputs(accepted: set<nat>, x: Node, y: Node) {
    forall i :: i in accepted ==> AcceptorAt(x, i).input == AcceptorAt(y, i).input
  }

  lemma OutputsCompared(decisions: Decisions, n: nat, f: nat, x: Node, y: Node)
    requires NodeInv(decisions, n, f, x) && NodeInv(decisions, n, f, y) && x.output.Some? && y.output.Some?
    ensures SomeSet(x.results) == SomeSet(y.results)
    ensures x.output == y.output <==> SameInputs(AcceptedBy(n, decisions), x, y)
  {
    OutputShape(decisions, n, f, x);
    OutputShape(decisions, n, f, y);
    forall i | 0 <= i < n ensures x.results[i].Some? == y.results[i].Some? {
      assert i in SomeSet(x.results) <==> i in SomeSet(y.results);
    }
    AcceptedInjective(x.results, y.results);
    ResultsCompared(decisions, n, f, x, y);
  }

  lemma ResultsCompared(decisions: Decisions, n: nat, f: nat, x: Node, y: Node)
    requires NodeInv(decisions, n, f, x) && NodeInv(decisions, n, f, y)
    requires Upto(n) <= x.taken && Upto(n) <= y.taken
    ensures x.results == y.results <==> SameInputs(AcceptedBy(n, decisions), x, y)
  {
    forall i: nat | i < n
      ensures ResponseOk(decisions, AcceptorAt(x, i), i, x.results[i]) && ResponseOk(decisions, AcceptorAt(y, i), i, y.results[i])
    {
      assert i in Upto(n);
    }
  }

  // So all correct nodes output the same list whenever no proposer broadcasts two different inputs.
  lemma SameOutput(g: Group, inputs: Inputs, s: System, p: Id, q: Id)
    requires Indexed(g) && Reachable(g, inputs, s) && p in s.nodes && q in s.nodes
    requires s.nodes[p].output.Some? && s.nodes[q].output.Some?
    requires forall i: nat, v, w :: i < g.n && v in inputs(i) && w in inputs(i) ==> v == w
    ensures s.nodes[p].output == s.nodes[q].output
  {
    ReachableNode(g, inputs, s, p);
    ReachableNode(g, inputs, s, q);
    OutputsCompared(s.decisions, g.n, g.f, s.nodes[p], s.nodes[q]);
    forall i | i in AcceptedBy(g.n, s.decisions) ensures AcceptorAt(s.nodes[p], i).input == AcceptorAt(s.nodes[q], i).input {
      AcceptedInput(s.decisions, g.n, g.f, s.nodes[p], i);
      AcceptedInput(s.decisions, g.n, g.f, s.nodes[q], i);
    }
  }

  lemma AcceptedInput(decisions: Decisions, n: nat, f: nat, x: Node, i: nat)
    requires NodeInv(decisions, n, f, x) && x.output.Some? && i in AcceptedBy(n, decisions)
    ensures i < |x.acceptors| && x.acceptors[i].input.Some?
  {
    OutputShape(decisions, n, f, x);
    assert ResponseOk(decisions, AcceptorAt(x, i), i, x.results[i]);
  }

  // ---- no deadlock

  // No goroutine of a correct node has anything left to do.
  ghost predicate Quiet(decisions: Decisions, x: Node) {
    && !CanTake(x) && !CanSweep(x)
    && forall i :: i in decisions ==> !CanAnswer(x, i, decisions[i])
  }

  // What the layers below promise: the inputs of correct proposers reach every correct node, an input
  // that reached one correct node reached all, and an agreement to which every correct node proposed
  // has decided.
  ghost predicate Settled(g: Group, s: System) {
    && (forall p :: p in s.nodes ==> Quiet(s.decisions, s.nodes[p]))
    && (forall p, i :: p in s.nodes && i in g.correct ==> AcceptorAt(s.nodes[p], i).input.Some?)
    && (forall p, q, i: nat :: p in s.nodes && q in s.nodes && AcceptorAt(s.nodes[p], i).input.Some? ==>
          AcceptorAt(s.nodes[q], i).input.Some?)
    && (forall i: nat :: i < g.n && AllProposed(s.nodes, i) ==> i in s.decisions)
  }

  ghost predicate AllProposed(nodes: map<Id, Node>, i: nat) {
    forall p :: p in nodes ==> AcceptorAt(nodes[p], i).proposed
  }

  // A quiet node has processed the response of every agreement it can answer for.
  lemma QuietTaken(decisions: Decisions, n: nat, f: nat, x: Node, i: nat)
    requires NodeInv(decisions, n, f, x) && Quiet(decisions, x) && i < n && i in decisions
    requires decisions[i] == Accept ==> AcceptorAt(x, i).input.Some?
    ensures i in x.taken && (i in SomeSet(x.results) <==> decisions[i] == Accept)
  {
    assert !CanAnswer(x, i, decisions[i]);
    assert AcceptorOk(x.acceptors[i]);
    assert x.queue == [] || x.pc.Done?;
    if i !in x.taken {
      assert Pending(x.queue, i);
      AllTaken(decisions, n, f, x);
    }
    PresentWhenAccepted(decisions, n, f, x);
  }

  lemma AcceptedReachesAll(g: Group, inputs: Inputs, s: System, p: Id, i: nat)
    requires Indexed(g) && Reachable(g, inputs, s) && Settled(g, s) && p in s.nodes && i in AcceptedBy(g.n, s.decisions)
    ensures AcceptorAt(s.nodes[p], i).input.Some?
  {
    ReachableGood(g, inputs, s);
    var q :| Proposes(s.nodes, q, i, Accept);
    assert NodeOk(g, s.decisions, s.nodes[q]);
    AcceptorFacts(s.decisions, g.n, g.f, s.nodes[q], i);
  }

  lemma QuietAnswered(g: Group, inputs: Inputs, s: System, p: Id, i: nat)
    requires Indexed(g) && Reachable(g, inputs, s) && Settled(g, s) && p in s.nodes && i < g.n && i in s.decisions
    ensures i in s.nodes[p].taken && (i in SomeSet(s.nodes[p].results) <==> s.decisions[i] == Accept)
  {
    ReachableGood(g, inputs, s);
    if s.decisions[i] == Accept {
      AcceptedReachesAll(g, inputs, s, p, i);
    }
    assert NodeOk(g, s.decisions, s.nodes[p]);
    QuietTaken(s.decisions, g.n, g.f, s.nodes[p], i);
  }

  lemma SweptByCount(decisions: Decisions, n: nat, f: nat, x: Node)
    requires NodeInv(decisions, n, f, x)
    ensures x.swept <==> |SomeSet(x.results)| >= n - f
  {
    AcceptedSize(x.results);
  }

  // If n - f agreements accepted, every correct node has swept.
  lemma EnoughSweeps(g: Group, inputs: Inputs, s: System, p: Id)
    requires Indexed(g) && Reachable(g, inputs, s) && Settled(g, s) && p in s.nodes
    requires |AcceptedBy(g.n, s.decisions)| >= g.n - g.f
    ensures s.nodes[p].swept
  {
    ReachableGood(g, inputs, s);
    forall i | i in AcceptedBy(g.n, s.decisions) ensures i in SomeSet(s.nodes[p].results) {
      QuietAnswered(g, inputs, s, p, i);
    }
    SubsetSize(AcceptedBy(g.n, s.decisions), SomeSet(s.nodes[p].results));
    assert NodeOk(g, s.decisions, s.nodes[p]);
    SweptByCount(s.decisions, g.n, g.f, s.nodes[p]);
  }

  // If nobody had swept, nobody could have rejected, so the agreements of all correct proposers
  // accepted: enough to make everybody sweep.
  ghost predicate NoneSwept(nodes: map<Id, Node>) {
    forall p :: p in nodes ==> !nodes[p].swept
  }

  lemma CorrectDecided(g: Group, inputs: Inputs, s: System, i: nat) returns (q: Id)
    requires Indexed(g) && Reachable(g, inputs, s) && Settled(g, s) && i in g.correct
    ensures i in s.decisions && i < g.n && Proposes(s.nodes, q, i, s.decisions[i])
  {
    ReachableGood(g, inputs, s);
    InputsProposed(g, inputs, s, i);
    SettledDecides(g, s, i);
    q := DecisionProposed(s.nodes, s.decisions, i);
  }

  lemma InputsProposed(g: Group, inputs: Inputs, s: System, i: nat)
    requires Indexed(g) && Reachable(g, inputs, s) && Settled(g, s) && i in g.correct
    ensures i < g.n && AllProposed(s.nodes, i)
  {
    assert i in g.Members();
    forall p | p in s.nodes ensures AcceptorAt(s.nodes[p], i).proposed {
      InputProposed(g, inputs, s, p, i);
    }
  }

  lemma SettledDecides(g: Group, s: System, i: nat)
    requires Settled(g, s) && i < g.n && AllProposed(s.nodes, i)
    ensures i in s.decisions
  {
  }

  lemma DecisionProposed(nodes: map<Id, Node>, decisions: Decisions, i: nat) returns (q: Id)
    requires DecisionsOk(nodes, decisions) && i in decisions
    ensures Proposes(nodes, q, i, decisions[i])
  {
    q :| Proposes(nodes, q, i, decisions[i]);
  }

  lemma UnsweptAccepts(g: Group, inputs: Inputs, s: System, i: nat)
    requires Indexed(g) && Reachable(g, inputs, s) && Settled(g, s) && i in g.correct
    requires NoneSwept(s.nodes)
    ensures i in AcceptedBy(g.n, s.decisions)
  {
    var q := CorrectDecided(g, inputs, s, i);
    if s.decisions[i] != Accept {
      SweptAccepted(g, inputs, s, q, i);
    }
  }

  lemma InputProposed(g: Group, inputs: Inputs, s: System, p: Id, i: nat)
    requires Indexed(g) && Reachable(g, inputs, s) && p in s.nodes && i < g.n && AcceptorAt(s.nodes[p], i).input.Some?
    ensures AcceptorAt(s.nodes[p], i).proposed
  {
    ReachableGood(g, inputs, s);
    assert NodeOk(g, s.decisions, s.nodes[p]);
    AcceptorFacts(s.decisions, g.n, g.f, s.nodes[p], i);
  }

  lemma UnsweptEnough(g: Group, inputs: Inputs, s: System)
    requires Indexed(g) && Reachable(g, inputs, s) && Settled(g, s) && NoneSwept(s.nodes)
    ensures |AcceptedBy(g.n, s.decisions)| >= g.n - g.f
  {
    CorrectAccepted(g, inputs, s);
    CorrectEnough(g, AcceptedBy(g.n, s.decisions));
  }

  lemma CorrectAccepted(g: Group, inputs: Inputs, s: System)
    requires Indexed(g) && Reachable(g, inputs, s) && Settled(g, s) && NoneSwept(s.nodes)
    ensures g.correct <= AcceptedBy(g.n, s.decisions)
  {
    forall i | i in g.correct ensures i in AcceptedBy(g.n, s.decisions) {
      UnsweptAccepts(g, inputs, s, i);
    }
  }

  lemma CorrectEnough(g: Group, accepted: set<nat>)
    requires g.Valid() && g.correct <= accepted
    ensures |accepted| >= g.n - g.f
  {
    CorrectQuorum(g);
    SubsetSize(g.correct, accepted);
  }

  lemma EverybodySwept(g: Group, inputs: Inputs, s: System)
    requires Indexed(g) && Reachable(g, inputs, s) && Settled(g, s)
    ensures forall p :: p in s.nodes ==> s.nodes[p].swept
  {
    if q :| q in s.nodes && s.nodes[q].swept {
      SweptAccepted(g, inputs, s, q, 0);
    } else {
      UnsweptEnough(g, inputs, s);
    }
    forall p | p in s.nodes ensures s.nodes[p].swept {
      EnoughSweeps(g, inputs, s, p);
    }
  }

  lemma EverythingDecided(g: Group, inputs: Inputs, s: System, i: nat)
    requires Indexed(g) && Reachable(g, inputs, s) && Settled(g, s) && i < g.n
    ensures i in s.decisions
  {
    SweepsProposed(g, inputs, s, i);
    SettledDecides(g, s, i);
  }

  lemma SweepsProposed(g: Group, inputs: Inputs, s: System, i: nat)
    requires Indexed(g) && Reachable(g, inputs, s) && Settled(g, s) && i < g.n
    ensures AllProposed(s.nodes, i)
  {
    EverybodySwept(g, inputs, s);
    forall p | p in s.nodes ensures AcceptorAt(s.nodes[p], i).proposed {
      SweptProposed(g, inputs, s, p, i);
    }
  }

  lemma SweptProposed(g: Group, inputs: Inputs, s: System, p: Id, i: nat)
    requires Indexed(g) && Reachable(g, inputs, s) && Settled(g, s) && p in s.nodes && i < g.n && s.nodes[p].swept
    ensures AcceptorAt(s.nodes[p], i).proposed
  {
    ReachableGood(g, inputs, s);
    assert NodeOk(g, s.decisions, s.nodes[p]) && Quiet(s.decisions, s.nodes[p]);
    AcceptorFacts(s.decisions, g.n, g.f, s.nodes[p], i);
  }

  lemma AllTakenOutputs(decisions: Decisions, n: nat, f: nat, x: Node)
    requires NodeInv(decisions, n, f, x) && Quiet(decisions, x) && Upto(n) <= x.taken
    ensures x.output.Some?
  {
    forall i | i in x.taken ensures i in Upto(n) {
    }
    assert x.taken == Upto(n);
  }

  // Every settled state has every correct node outputting.
  lemma NoDeadlock(g: Group, inputs: Inputs, s: System)
    requires Indexed(g) && Reachable(g, inputs, s) && Settled(g, s)
    ensures forall p :: p in s.nodes ==> s.nodes[p].output.Some?
  {
    ReachableGood(g, inputs, s);
    forall p | p in s.nodes ensures s.nodes[p].output.Some? {
      forall i | i in Upto(g.n) ensures i in s.nodes[p].taken {
        EverythingDecided(g, inputs, s, i);
        QuietAnswered(g, inputs, s, p, i);
      }
      assert NodeOk(g, s.decisions, s.nodes[p]) && Quiet(s.decisions, s.nodes[p]);
      AllTakenOutputs(s.decisions, g.n, g.f, s.nodes[p]);
    }
  }
}
