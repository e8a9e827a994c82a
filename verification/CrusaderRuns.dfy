/** A crusader agreement among a whole group: the step relation, and an invariant of every run.

    Only correct nodes have a state. A step is any action of any correct node; a message claimed to
    come from a correct node must have been broadcast by it, a faulty node may send anything to
    anyone, and messages arrive in any order, any number of times. */
module CrusaderRuns {
  import opened Quorums
  import opened CrusaderNode
  import opened CrusaderInvariants

  type System = map<Id, State>

  ghost predicate Authentic(g: Group, sys: System, a: Action) {
    a.Receive? ==> Backed(g, sys, a.from, a.msg)
  }

  ghost predicate Step(g: Group, sys: System, p: Id, a: Action, sys': System) {
    && p in sys && Can(sys[p], a) && Authentic(g, sys, a)
    && sys' == sys[p := Apply(sys[p], a)]
  }

  ghost predicate Next(g: Group, sys: System, sys': System) {
    exists p, a :: Step(g, sys, p, a, sys')
  }

  ghost function Initial(g: Group, variant: Variant): System {
    map p | p in g.correct :: Fresh(variant, g.n, g.f)
  }

  // A finite stretch of execution, from any system.
  ghost predicate Path(g: Group, path: seq<System>) {
    |path| > 0 && forall i :: 0 <= i < |path| - 1 ==> Next(g, path[i], path[i + 1])
  }

  ghost predicate Leads(g: Group, sys: System, sys': System) {
    exists path :: Path(g, path) && path[0] == sys && path[|path| - 1] == sys'
  }

  lemma LeadsToSelf(g: Group, sys: System)
    ensures Leads(g, sys, sys)
  {
    var path := [sys];
    assert Path(g, path) && path[0] == sys && path[|path| - 1] == sys;
  }

  lemma LeadsOn(g: Group, sys: System, sys': System, next: System)
    requires Leads(g, sys, sys') && Next(g, sys', next)
    ensures Leads(g, sys, next)
  {
    var path :| Path(g, path) && path[0] == sys && path[|path| - 1] == sys';
    var path' := path + [next];
    forall i | 0 <= i < |path'| - 1 ensures Next(g, path'[i], path'[i + 1]) {
      if i < |path| - 1 {
        assert Next(g, path[i], path[i + 1]);
      }
    }
    assert Path(g, path') && path'[0] == sys && path'[|path'| - 1] == next;
  }

  ghost predicate Reachable(g: Group, variant: Variant, sys: System) {
    Leads(g, Initial(g, variant), sys)
  }

  // ---- the invariant

  ghost predicate Proposed(sys: System, v: int) {
    exists p :: p in sys && HasEstimate(sys[p].proposals, v)
  }

  ghost predicate NodeOk(g: Group, variant: Variant, s: State) {
    LocalInv(s) && s.variant == variant && s.n == g.n && s.f == g.f
  }

  ghost predicate NodesOk(g: Group, variant: Variant, sys: System) {
    sys.Keys == g.correct && forall p :: p in sys ==> NodeOk(g, variant, sys[p])
  }

  // What a correct node counted from a correct node, that node broadcast.
  ghost predicate Backed(g: Group, sys: System, q: Id, m: Message) {
    q in g.Members() && (q in g.correct ==> q in sys && Sent(sys[q], m))
  }

  ghost predicate Provenance(g: Group, sys: System) {
    forall p, q, m :: p in sys && Counted(sys[p], q, m) ==> Backed(g, sys, q, m)
  }

  // Amplification never invents a value: an echoed value was proposed by a correct node.
  ghost predicate EchoesRooted(sys: System) {
    forall p, v :: p in sys && v in sys[p].echo.bcast ==> Proposed(sys, v)
  }

  ghost predicate Inv(g: Group, variant: Variant, sys: System) {
    g.Valid() && NodesOk(g, variant, sys) && Provenance(g, sys) && EchoesRooted(sys)
  }

  // ---- how one action changes what the rest of the group sees

  lemma SentGrows(s: State, a: Action, m: Message)
    requires Can(s, a) && Sent(s, m)
    ensures Sent(Apply(s, a), m)
  {
  }

  lemma CountedOnly(s: State, a: Action, q: Id, m: Message)
    requires Can(s, a) && Counted(Apply(s, a), q, m)
    ensures Counted(s, q, m) || a == Receive(q, m)
  {
    match a
    case Start(est, coin) =>
    case Receive(from, msg) => HandleCounts(s, from, msg, q, m);
    case Run(job) =>
  }

  lemma HandleCounts(s: State, from: Id, msg: Message, q: Id, m: Message)
    requires Counted(Handle(s, from, msg), q, m)
    ensures Counted(s, q, m) || (from == q && msg == m)
  {
  }

  lemma ActionFrame(s: State, a: Action)
    requires Can(s, a)
    ensures var t := Apply(s, a);
            && t.variant == s.variant && t.n == s.n && t.f == s.f
            && s.proposals <= t.proposals && s.bind.bcast <= t.bind.bcast && s.decide.output <= t.decide.output
  {
    match a
    case Start(est, coin) =>
    case Receive(from, msg) => HandleFrame(s, from, msg);
    case Run(job) => WorkFrame(s, job);
  }

  lemma HandleFrame(s: State, from: Id, m: Message)
    ensures var t := Handle(s, from, m);
            && t.variant == s.variant && t.n == s.n && t.f == s.f
            && t.proposals == s.proposals && t.bind.bcast == s.bind.bcast && t.decide.output == s.decide.output
  {
  }

  lemma WorkFrame(s: State, job: Job)
    requires Enabled(s, job)
    ensures var t := Work(s, job);
            && t.variant == s.variant && t.n == s.n && t.f == s.f
            && t.proposals == s.proposals && s.bind.bcast <= t.bind.bcast && s.decide.output <= t.decide.output
  {
  }

  lemma EstimateKept(ps: seq<Proposal>, ps': seq<Proposal>, v: int)
    requires ps <= ps' && HasEstimate(ps, v)
    ensures HasEstimate(ps', v)
  {
    var i :| 0 <= i < |ps| && ps[i].est == v;
    assert ps'[i].est == v;
  }

  lemma ProposedGrows(g: Group, sys: System, p: Id, a: Action, sys': System, v: int)
    requires Step(g, sys, p, a, sys') && Proposed(sys, v)
    ensures Proposed(sys', v)
  {
    var q :| q in sys && HasEstimate(sys[q].proposals, v);
    ActionFrame(sys[p], a);
    EstimateKept(sys[q].proposals, sys'[q].proposals, v);
  }

  // ---- preservation

  lemma BackedKept(g: Group, sys: System, p: Id, a: Action, sys': System, q: Id, m: Message)
    requires Step(g, sys, p, a, sys') && Backed(g, sys, q, m)
    ensures Backed(g, sys', q, m)
  {
    if q == p && p in g.correct {
      SentGrows(sys[p], a, m);
    }
  }

  lemma ProvenanceKept(g: Group, sys: System, p: Id, a: Action, sys': System)
    requires Provenance(g, sys) && Step(g, sys, p, a, sys')
    ensures Provenance(g, sys')
  {
    forall r, q, m | r in sys' && Counted(sys'[r], q, m)
      ensures Backed(g, sys', q, m)
    {
      if r == p {
        CountedOnly(sys[p], a, q, m);
      }
      BackedKept(g, sys, p, a, sys', q, m);
    }
  }

  // The echo set of `p` after the step, seen before it: every correct member had broadcast.
  lemma EchoersBroadcast(g: Group, sys: System, p: Id, a: Action, q: Id, v: int)
    requires Provenance(g, sys) && p in sys && Can(sys[p], a) && Authentic(g, sys, a)
    requires IsBit(v) && q in Apply(sys[p], a).echo.from.At(v)
    ensures Backed(g, sys, q, EchoMsg(v))
  {
    assert Counted(Apply(sys[p], a), q, EchoMsg(v));
    CountedOnly(sys[p], a, q, EchoMsg(v));
  }

  lemma RootedKept(g: Group, variant: Variant, sys: System, p: Id, a: Action, sys': System)
    requires Inv(g, variant, sys) && Step(g, sys, p, a, sys')
    ensures EchoesRooted(sys')
  {
    forall r, v | r in sys' && v in sys'[r].echo.bcast
      ensures Proposed(sys', v)
    {
      if v in sys[r].echo.bcast {
        ProposedGrows(g, sys, p, a, sys', v);
      } else {
        NewEcho(g, variant, sys, p, a, sys', v);
      }
    }
  }

  lemma NewEcho(g: Group, variant: Variant, sys: System, p: Id, a: Action, sys': System, v: int)
    requires Inv(g, variant, sys) && Step(g, sys, p, a, sys') && v in sys'[p].echo.bcast
    ensures Proposed(sys', v)
  {
    var t := sys'[p];
    ApplyInv(sys[p], a);
    ActionFrame(sys[p], a);
    EchoEvidence(t, v);
    if !HasEstimate(t.proposals, v) {
      forall q | q in t.echo.from.At(v) ensures q in g.Members() {
        EchoersBroadcast(g, sys, p, a, q, v);
      }
      var q := SomeCorrect(g, t.echo.from.At(v));
      EchoersBroadcast(g, sys, p, a, q, v);
      ProposedGrows(g, sys, p, a, sys', v);
    }
  }

  lemma EchoEvidence(s: State, v: int)
    requires LocalInv(s) && v in s.echo.bcast
    ensures IsBit(v)
    ensures HasEstimate(s.proposals, v) || |s.echo.from.At(v)| > s.f
  {
  }

  lemma NodeKept(g: Group, variant: Variant, s: State, a: Action)
    requires NodeOk(g, variant, s) && Can(s, a)
    ensures NodeOk(g, variant, Apply(s, a))
  {
    ApplyInv(s, a);
    ActionFrame(s, a);
  }

  lemma NodesKept(g: Group, variant: Variant, sys: System, p: Id, a: Action, sys': System)
    requires NodesOk(g, variant, sys) && Step(g, sys, p, a, sys')
    ensures NodesOk(g, variant, sys')
  {
    NodeKept(g, variant, sys[p], a);
  }

  lemma StepInv(g: Group, variant: Variant, sys: System, p: Id, a: Action, sys': System)
    requires Inv(g, variant, sys) && Step(g, sys, p, a, sys')
    ensures Inv(g, variant, sys')
  {
    NodesKept(g, variant, sys, p, a, sys');
    ProvenanceKept(g, sys, p, a, sys');
    RootedKept(g, variant, sys, p, a, sys');
  }

  lemma InitialInv(g: Group, variant: Variant)
    requires g.Valid()
    ensures Inv(g, variant, Initial(g, variant))
  {
    FreshInv(variant, g.n, g.f);
  }

  lemma NextInv(g: Group, variant: Variant, sys: System, sys': System)
    requires Inv(g, variant, sys) && Next(g, sys, sys')
    ensures Inv(g, variant, sys')
  {
    var p, a :| Step(g, sys, p, a, sys');
    StepInv(g, variant, sys, p, a, sys');
  }

  lemma PathNext(g: Group, path: seq<System>, k: nat)
    requires Path(g, path) && k + 1 < |path|
    ensures Next(g, path[k], path[k + 1])
  {
  }

  lemma {:induction false} PathInv(g: Group, variant: Variant, path: seq<System>, i: nat)
    requires Path(g, path) && Inv(g, variant, path[0]) && i < |path|
    ensures Inv(g, variant, path[i])
  {
    if i > 0 {
      var k := i - 1;
      PathInv(g, variant, path, k);
      PathNext(g, path, k);
      NextInv(g, variant, path[k], path[k + 1]);
    }
  }

  lemma ReachableInv(g: Group, variant: Variant, sys: System)
    requires g.Valid() && Reachable(g, variant, sys)
    ensures Inv(g, variant, sys)
  {
    var path :| Path(g, path) && path[0] == Initial(g, variant) && path[|path| - 1] == sys;
    InitialInv(g, variant);
    PathInv(g, variant, path, |path| - 1);
  }
}
