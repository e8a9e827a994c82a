/** Settled states are there to be reached: whatever has happened, once all correct nodes have proposed, a
    first-round crusader agreement can be brought to a settled state by delivering what correct nodes have
    sent and letting their goroutines run. So the progress theorems are never empty, and a unanimous group can
    always decide. */
module CrusaderSettling {
  import opened Quorums
  import opened CrusaderNode
  import opened CrusaderInvariants
  import opened CrusaderRuns
  import opened CrusaderSafety
  import opened CrusaderProgress

  // ---- what is done so far, which only grows, and is bounded

  datatype Fact = Heard(p: Id, q: Id, m: Message) | Stage(p: Id, k: nat)

  const Messages: set<Message> :=
    {EchoMsg(0), EchoMsg(1), VoteMsg(0), VoteMsg(1), BindMsg(0), BindMsg(1), BindMsg(2)}
  const Stages: set<nat> := {0, 1, 2, 3, 4}

  function Rank(s: State): nat {
    (match s.vote.voter case AwaitFirst => 0 case AwaitSecond(_) => 1 case _ => 2)
    + (if s.bind.done then 1 else 0)
    + (match s.decide.decider case AwaitSignal => 0 case AwaitMore => 1 case Decided => 2)
  }

  ghost function Everything(nodes: set<Id>): set<Fact> {
    (set p, q, m | p in nodes && q in nodes && m in Messages :: Heard(p, q, m)) + (set p, k | p in nodes && k in Stages :: Stage(p, k))
  }

  ghost function Done(sys: System): set<Fact> {
    (set p, q, m | p in sys.Keys && q in sys.Keys && m in Messages && Counted(sys[p], q, m) :: Heard(p, q, m))
    + (set p, k | p in sys.Keys && k in Stages && k < Rank(sys[p]) :: Stage(p, k))
  }

  lemma DoneBounded(sys: System)
    ensures Done(sys) <= Everything(sys.Keys)
  {
  }

  // ---- one useful step

  // The step changes no proposal and adds to what is done.
  ghost predicate Useful(g: Group, sys: System, sys': System) {
    && Next(g, sys, sys') && sys'.Keys == sys.Keys
    && (forall p :: p in sys ==> sys'[p].proposals == sys[p].proposals)
    && Done(sys) < Done(sys')
  }

  lemma SentRange(s: State, m: Message)
    requires LocalInv(s) && Sent(s, m)
    ensures m in Messages
  {
    match m
    case EchoMsg(v) => EchoEvidence(s, v);
    case VoteMsg(v) => VoteEvidence(s, v);
    case BindMsg(v) => BindEvidence(s, v);
  }

  lemma VoteHeard(s: State, v: int, q: Id)
    requires IsBit(v) && q !in s.vote.from.At(0) && q !in s.vote.from.At(1)
    ensures Counted(SubmitVote(s, v, q), q, VoteMsg(v))
  {
  }

  lemma BindHeard(s: State, v: int, q: Id)
    requires s.variant == Internal && 0 <= v <= Bot && q !in s.bind.from.At(0) && q !in s.bind.from.At(1) && q !in s.bind.from.At(2)
    ensures Counted(SubmitBind(s, v, q), q, BindMsg(v))
  {
  }

  lemma EchoHeard(s: State, v: int, q: Id)
    requires IsBit(v)
    ensures Counted(SubmitEcho(s, v, q), q, EchoMsg(v))
  {
  }

  // A correct sender's message is not refused the first time.
  lemma HeardThen(g: Group, sys: System, p: Id, q: Id, m: Message)
    requires g.Valid() && Reachable(g, Internal, sys) && p in sys && q in sys && Sent(sys[q], m) && !Counted(sys[p], q, m)
    ensures Counted(Handle(sys[p], q, m), q, m)
  {
    InRange(g, sys, q, m);
    if m.EchoMsg? {
      EchoHeard(sys[p], m.v, q);
    } else if m.VoteMsg? {
      VoteHeardThen(g, sys, p, q, m.v);
    } else {
      BindHeardThen(g, sys, p, q, m.v);
    }
  }

  lemma VoteHeardThen(g: Group, sys: System, p: Id, q: Id, v: int)
    requires g.Valid() && Reachable(g, Internal, sys) && p in sys && q in sys && Sent(sys[q], VoteMsg(v)) && !Counted(sys[p], q, VoteMsg(v))
    requires IsBit(v)
    ensures Counted(SubmitVote(sys[p], v, q), q, VoteMsg(v))
  {
    NoVoteYet(g, sys, p, q, v);
    VoteHeard(sys[p], v, q);
  }

  lemma InRange(g: Group, sys: System, q: Id, m: Message)
    requires g.Valid() && Reachable(g, Internal, sys) && q in sys && Sent(sys[q], m)
    ensures m in Messages && 0 <= m.v <= Bot && (!m.BindMsg? ==> IsBit(m.v))
  {
    ReachableInv(g, Internal, sys);
    assert NodeOk(g, Internal, sys[q]);
    SentRange(sys[q], m);
    MessageRange(m);
  }

  lemma MessageRange(m: Message)
    ensures m in Messages <==> 0 <= m.v <= Bot && (!m.BindMsg? ==> IsBit(m.v))
  {
  }

  lemma BindHeardThen(g: Group, sys: System, p: Id, q: Id, v: int)
    requires g.Valid() && Reachable(g, Internal, sys) && p in sys && q in sys && Sent(sys[q], BindMsg(v)) && !Counted(sys[p], q, BindMsg(v))
    requires 0 <= v <= Bot
    ensures Counted(SubmitBind(sys[p], v, q), q, BindMsg(v))
  {
    ReachableInv(g, Internal, sys);
    assert NodeOk(g, Internal, sys[p]);
    NoBindYet(g, sys, p, q, v, 0);
    NoBindYet(g, sys, p, q, v, 1);
    NoBindYet(g, sys, p, q, v, 2);
    BindHeard(sys[p], v, q);
  }

  lemma NoVoteYet(g: Group, sys: System, p: Id, q: Id, v: int)
    requires g.Valid() && Reachable(g, Internal, sys) && p in sys && q in sys && Sent(sys[q], VoteMsg(v)) && !Counted(sys[p], q, VoteMsg(v))
    ensures q !in sys[p].vote.from.At(0) && q !in sys[p].vote.from.At(1)
  {
    if q in sys[p].vote.from.At(0) {
      NotOther(g, sys, p, q, VoteMsg(v), VoteMsg(0));
    }
    if q in sys[p].vote.from.At(1) {
      NotOther(g, sys, p, q, VoteMsg(v), VoteMsg(1));
    }
  }

  lemma NoBindYet(g: Group, sys: System, p: Id, q: Id, v: int, w: int)
    requires g.Valid() && Reachable(g, Internal, sys) && p in sys && q in sys && Sent(sys[q], BindMsg(v)) && !Counted(sys[p], q, BindMsg(v))
    requires 0 <= w <= Bot
    ensures q !in sys[p].bind.from.At(w)
  {
    if q in sys[p].bind.from.At(w) {
      NotOther(g, sys, p, q, BindMsg(v), BindMsg(w));
    }
  }

  lemma NotOther(g: Group, sys: System, p: Id, q: Id, m: Message, m': Message)
    requires g.Valid() && Reachable(g, Internal, sys) && p in sys && q in sys && Sent(sys[q], m) && Counted(sys[p], q, m') && !m.EchoMsg? && m.VoteMsg? == m'.VoteMsg? && !m'.EchoMsg?
    ensures m == m'
  {
    ReachableInv(g, Internal, sys);
    assert Backed(g, sys, q, m');
    assert NodeOk(g, Internal, sys[q]);
    OneVoteOneBind(sys[q], m, m');
  }

  lemma OneVoteOneBind(s: State, m: Message, m': Message)
    requires LocalInv(s) && Sent(s, m) && Sent(s, m') && !m.EchoMsg? && !m'.EchoMsg? && m.VoteMsg? == m'.VoteMsg?
    ensures m == m'
  {
    if m.VoteMsg? {
      VoteEvidence(s, m.v);
      VoteEvidence(s, m'.v);
    } else {
      BindEvidence(s, m.v);
      BindEvidence(s, m'.v);
    }
  }

  // Whom a node has counted for what only grows.
  ghost predicate CountsGrow(s: State, t: State) {
    && s.echo.from.zero <= t.echo.from.zero && s.echo.from.one <= t.echo.from.one
    && s.vote.from.zero <= t.vote.from.zero && s.vote.from.one <= t.vote.from.one
    && s.bind.from.zero <= t.bind.from.zero && s.bind.from.one <= t.bind.from.one && s.bind.from.bot <= t.bind.from.bot
  }

  lemma StartCounts(s: State, est: int, coin: int)
    ensures CountsGrow(s, Propose(s, est, coin))
  {
  }

  lemma EchoCounts(s: State, v: int, from: Id)
    ensures CountsGrow(s, SubmitEcho(s, v, from))
  {
  }

  lemma VoteCounts(s: State, v: int, from: Id)
    ensures CountsGrow(s, SubmitVote(s, v, from))
  {
  }

  lemma BindCounts(s: State, v: int, from: Id)
    ensures CountsGrow(s, SubmitBind(s, v, from))
  {
    if BindAccepted(s.variant, s.bind, v, from) {
      MoreBinds(s.Quorum(), s.bind, v, from);
    }
  }

  lemma MoreBinds(q: int, b: BindStage, v: int, from: Id)
    requires 0 <= v <= Bot
    ensures CountBind(q, b, v, from).from == b.from.Put(v, b.from.At(v) + {from})
  {
  }

  lemma WorkCounts(s: State, j: Job)
    requires Enabled(s, j)
    ensures CountsGrow(s, Work(s, j))
  {
  }

  lemma ActionCounts(s: State, a: Action)
    requires Can(s, a)
    ensures CountsGrow(s, Apply(s, a))
  {
    match a
    case Start(est, coin) => StartCounts(s, est, coin);
    case Receive(from, EchoMsg(v)) => EchoCounts(s, v, from);
    case Receive(from, VoteMsg(v)) => VoteCounts(s, v, from);
    case Receive(from, BindMsg(v)) => BindCounts(s, v, from);
    case Run(j) => WorkCounts(s, j);
  }

  lemma CountedStays(s: State, t: State, q: Id, m: Message)
    requires CountsGrow(s, t) && Counted(s, q, m)
    ensures Counted(t, q, m)
  {
  }

  lemma RankGrows(s: State, a: Action)
    requires LocalInv(s) && s.variant == Internal && Can(s, a) && !a.Start?
    ensures Rank(s) <= Rank(Apply(s, a)) <= 5 && (a.Run? ==> Rank(s) < Rank(Apply(s, a)))
  {
  }

  lemma DoneStays(sys: System, p: Id, a: Action, sys': System)
    requires p in sys && LocalInv(sys[p]) && sys[p].variant == Internal && Can(sys[p], a) && !a.Start?
    requires sys' == sys[p := Apply(sys[p], a)]
    ensures Done(sys) <= Done(sys') && sys'.Keys == sys.Keys
  {
    RankGrows(sys[p], a);
    ActionCounts(sys[p], a);
    forall x | x in Done(sys) ensures x in Done(sys') {
      match x
      case Heard(r, q, m) =>
        if r == p { CountedStays(sys[p], sys'[p], q, m); }
      case Stage(r, k) =>
    }
  }

  lemma SameProposals(s: State, a: Action)
    requires Can(s, a) && !a.Start?
    ensures Apply(s, a).proposals == s.proposals
  {
    match a
    case Receive(from, msg) => HandleFrame(s, from, msg);
    case Run(job) => WorkFrame(s, job);
  }

  lemma HeardIn(sys: System, p: Id, q: Id, m: Message)
    ensures Heard(p, q, m) in Done(sys) <==> p in sys && q in sys && m in Messages && Counted(sys[p], q, m)
  {
  }

  lemma StageIn(sys: System, p: Id, k: nat)
    ensures Stage(p, k) in Done(sys) <==> p in sys && k in Stages && k < Rank(sys[p])
  {
  }

  lemma IsUseful(g: Group, sys: System, p: Id, a: Action, sys': System, x: Fact)
    requires Step(g, sys, p, a, sys') && !a.Start? && LocalInv(sys[p]) && sys[p].variant == Internal
    requires x in Done(sys') && x !in Done(sys)
    ensures Useful(g, sys, sys')
  {
    DoneStays(sys, p, a, sys');
    SameProposals(sys[p], a);
  }

  lemma Delivers(g: Group, sys: System, p: Id, q: Id, m: Message) returns (sys': System)
    requires g.Valid() && Reachable(g, Internal, sys) && p in sys && q in sys && Sent(sys[q], m) && !Counted(sys[p], q, m)
    ensures Useful(g, sys, sys')
  {
    var t := Handle(sys[p], q, m);
    sys' := sys[p := t];
    InRange(g, sys, q, m);
    HeardThen(g, sys, p, q, m);
    NewlyHeard(sys, p, q, m, t);
    OnlyCorrect(g, sys);
    CanReceive(g, sys, p, q, m, sys');
    OneNode(g, sys, p);
    IsUseful(g, sys, p, Receive(q, m), sys', Heard(p, q, m));
  }

  lemma NewlyHeard(sys: System, p: Id, q: Id, m: Message, t: State)
    requires p in sys && q in sys && m in Messages && !Counted(sys[p], q, m) && Counted(t, q, m)
    ensures Heard(p, q, m) in Done(sys[p := t]) && Heard(p, q, m) !in Done(sys)
  {
    HeardIn(sys, p, q, m);
    HeardIn(sys[p := t], p, q, m);
  }

  lemma CanReceive(g: Group, sys: System, p: Id, q: Id, m: Message, sys': System)
    requires sys.Keys == g.correct && p in sys && q in sys && Sent(sys[q], m) && sys' == sys[p := Handle(sys[p], q, m)]
    ensures Step(g, sys, p, Receive(q, m), sys')
  {
    assert Backed(g, sys, q, m);
  }

  lemma OnlyCorrect(g: Group, sys: System)
    requires g.Valid() && Reachable(g, Internal, sys)
    ensures sys.Keys == g.correct
  {
    ReachableInv(g, Internal, sys);
  }

  lemma Works(g: Group, sys: System, p: Id, j: Job) returns (sys': System)
    requires g.Valid() && Reachable(g, Internal, sys) && p in sys && Enabled(sys[p], j)
    ensures Useful(g, sys, sys')
  {
    var k := Rank(sys[p]);
    sys' := sys[p := Work(sys[p], j)];
    OneNode(g, sys, p);
    RankGrows(sys[p], Run(j));
    StageIn(sys, p, k);
    StageIn(sys', p, k);
    IsUseful(g, sys, p, Run(j), sys', Stage(p, k));
  }

  ghost predicate AllProposed(sys: System) {
    forall p :: p in sys ==> sys[p].proposals != []
  }

  // Unless it is settled, there is a useful step.
  lemma Unsettled(g: Group, sys: System) returns (sys': System)
    requires g.Valid() && Reachable(g, Internal, sys) && AllProposed(sys) && !Settled(sys)
    ensures Useful(g, sys, sys')
  {
    if p, j :| p in sys && Enabled(sys[p], j) {
      sys' := Works(g, sys, p, j);
    } else {
      assert forall p :: p in sys ==> Quiet(sys[p]);
      var p, q, m :| p in sys && q in sys && Sent(sys[q], m) && !Counted(sys[p], q, m);
      sys' := Delivers(g, sys, p, q, m);
    }
  }

  ghost predicate SameStart(sys: System, sys': System) {
    sys'.Keys == sys.Keys && forall p :: p in sys ==> sys'[p].proposals == sys[p].proposals
  }

  lemma {:induction false} Settles(g: Group, start: System, sys: System) returns (end: System)
    requires g.Valid() && Reachable(g, Internal, sys) && AllProposed(sys) && Leads(g, start, sys)
    ensures Leads(g, start, end) && Settled(end) && SameStart(sys, end)
    decreases |Everything(sys.Keys)| - |Done(sys)|
  {
    if Settled(sys) {
      end := sys;
    } else {
      var sys' := Unsettled(g, sys);
      LeadsOn(g, Initial(g, Internal), sys, sys');
      LeadsOn(g, start, sys, sys');
      Fewer(sys, sys');
      end := Settles(g, start, sys');
    }
  }

  lemma Fewer(sys: System, sys': System)
    requires sys'.Keys == sys.Keys && Done(sys) < Done(sys')
    ensures |Done(sys)| < |Done(sys')| <= |Everything(sys.Keys)|
  {
    DoneBounded(sys');
    Between(Done(sys), Done(sys'), Everything(sys.Keys));
  }

  /** From every reachable state in which all correct nodes have proposed, a settled state can be reached, and
      there some correct node has decided. */
  lemma CanSettle(g: Group, sys: System) returns (end: System)
    requires g.Valid() && Reachable(g, Internal, sys) && AllProposed(sys)
    ensures Leads(g, sys, end) && Reachable(g, Internal, end) && Settled(end) && SameStart(sys, end)
    ensures exists p :: p in end && HasDecided(end[p])
  {
    ReachableInv(g, Internal, sys);
    LeadsToSelf(g, sys);
    end := Settles(g, sys, sys);
    LeadsTrans(g, Initial(g, Internal), sys, end);
    NeverStuck(g, end);
  }

  lemma LeadsTrans(g: Group, a: System, b: System, c: System)
    requires Leads(g, a, b) && Leads(g, b, c)
    ensures Leads(g, a, c)
  {
    var first :| Path(g, first) && first[0] == a && first[|first| - 1] == b;
    var second :| Path(g, second) && second[0] == b && second[|second| - 1] == c;
    Joined(g, first, second);
    var path := first + second[1..];
    assert path[0] == a && path[|path| - 1] == c;
  }

  lemma Joined(g: Group, first: seq<System>, second: seq<System>)
    requires Path(g, first) && Path(g, second) && first[|first| - 1] == second[0]
    ensures Path(g, first + second[1..])
    ensures (first + second[1..])[|first| + |second| - 2] == second[|second| - 1]
  {
    var path := first + second[1..];
    forall i | 0 <= i < |path| - 1 ensures Next(g, path[i], path[i + 1]) {
      if i < |first| - 1 {
        assert Next(g, first[i], first[i + 1]);
      } else {
        var k := i - (|first| - 1);
        assert Next(g, second[k], second[k + 1]);
        assert path[i] == second[k] && path[i + 1] == second[k + 1];
      }
    }
  }

  // ---- unanimity decides

  // In a settled state of a unanimous group everybody has decided the common estimate, and nothing else.
  lemma UnanimousDecide(g: Group, sys: System, v: int)
    requires g.Valid() && Reachable(g, Internal, sys) && Settled(sys) && IsBit(v) && AllEstimate(sys, v)
    ensures forall p :: p in sys ==> sys[p].decide.output == [v]
  {
    ReachableInv(g, Internal, sys);
    forall p | p in sys ensures sys[p].decide.output == [v] {
      OneValue(g, sys, p, v);
      DecidesWhenUnanimous(g, sys, p, v);
      assert NodeOk(g, Internal, sys[p]);
      OutputEvidence(sys[p], sys[p].decide.output[0]);
      OnlyDecided(g, Internal, sys, p, v, sys[p].decide.output[0]);
    }
  }

  lemma OneValue(g: Group, sys: System, p: Id, v: int)
    requires g.Valid() && Reachable(g, Internal, sys) && Settled(sys) && p in sys && IsBit(v) && AllEstimate(sys, v)
    ensures v in sys[p].echo.approve.sent && 1 - v !in sys[p].echo.approve.sent
  {
    var w := SomeApproved(g, sys);
    ApprovedOnly(g, sys, p, v, w);
    if 1 - v in sys[p].echo.approve.sent {
      ApprovedOnly(g, sys, p, v, 1 - v);
    }
  }

  lemma ApprovedOnly(g: Group, sys: System, p: Id, v: int, w: int)
    requires g.Valid() && Reachable(g, Internal, sys) && AllEstimate(sys, v) && IsBit(v)
    requires p in sys && w in sys[p].echo.approve.sent
    ensures w == v
  {
    ReachableInv(g, Internal, sys);
    OnlyApproved(g, Internal, sys, p, v, w);
  }

  // Some nodes have proposed v, the others nothing.
  ghost predicate Began(g: Group, sys: System, began: set<Id>, v: int) {
    && sys.Keys == g.correct
    && forall p :: p in sys ==> sys[p] == if p in began then Propose(Fresh(Internal, g.n, g.f), v, Bot) else Fresh(Internal, g.n, g.f)
  }

  lemma {:induction false} CanBegin(g: Group, v: int, began: set<Id>) returns (sys: System)
    requires g.Valid() && IsBit(v) && began <= g.correct
    ensures Reachable(g, Internal, sys) && Began(g, sys, began, v)
    decreases |began|
  {
    if began == {} {
      sys := Initial(g, Internal);
      LeadsToSelf(g, sys);
    } else {
      var p :| p in began;
      var before := CanBegin(g, v, began - {p});
      sys := before[p := Propose(before[p], v, Bot)];
      assert Step(g, before, p, Start(v, Bot), sys);
      assert Next(g, before, sys);
      LeadsOn(g, Initial(g, Internal), before, sys);
    }
  }

  lemma BegunEstimates(g: Group, sys: System, v: int)
    requires Began(g, sys, g.correct, v) && IsBit(v)
    ensures AllProposed(sys) && AllEstimate(sys, v)
  {
    forall p | p in sys ensures sys[p].proposals == [Proposal(v, Bot)] {
    }
  }

  /** In every group and for each value, if all correct nodes propose it, a settled state can be reached, and
      there every correct node has decided it. */
  lemma UnanimousGroupCanDecide(g: Group, v: int) returns (sys: System)
    requires g.Valid() && IsBit(v)
    ensures Reachable(g, Internal, sys) && Settled(sys) && AllEstimate(sys, v) && sys.Keys == g.correct
    ensures forall p :: p in sys ==> sys[p].decide.output == [v]
  {
    var begun := CanBegin(g, v, g.correct);
    BegunEstimates(g, begun, v);
    sys := CanSettle(g, begun);
    UnanimousDecide(g, sys, v);
  }
}
