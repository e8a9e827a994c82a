/** Safety of a crusader agreement over every run: agreement, unanimity (validity) in both variants,
    and the binding property of the first-round variant. */
module CrusaderSafety {
  import opened Quorums
  import opened CrusaderNode
  import opened CrusaderInvariants
  import opened CrusaderRuns

  // ---- what an output, a bind, a vote or an approval of one node proves about its counters

  lemma OutputEvidence(s: State, d: int)
    requires LocalInv(s) && d in s.decide.output
    ensures s.decide.output == [d] && 0 <= d <= Bot
    ensures Total(s.bind.from) >= s.Quorum()
    ensures IsBit(d) ==> |s.bind.from.At(d)| >= s.Quorum()
    ensures d == Bot ==> |s.bind.from.bot| >= s.Quorum() || s.vote.voter.SawBoth?
  {
    assert s.decide.output[0] == d;
  }

  lemma BindEvidence(s: State, v: int)
    requires LocalInv(s) && v in s.bind.bcast
    ensures s.bind.bcast == [v]
    ensures v == Bot ==> s.vote.voter.SawBoth?
    ensures v != Bot ==> IsBit(v) && (|s.vote.from.At(v)| >= s.Quorum() || Forwarded(s.variant, s.proposals, v))
  {
    assert s.bind.bcast[0] == v;
  }

  lemma VoteEvidence(s: State, v: int)
    requires LocalInv(s) && v in s.vote.bcast
    ensures s.vote.bcast == [v] && v in s.echo.approve.sent
  {
    assert s.vote.bcast[0] == v;
    assert s.echo.approve.sent[0] in s.echo.approve.sent;
  }

  lemma BothEvidence(s: State)
    requires LocalInv(s) && s.vote.voter.SawBoth?
    ensures 0 in s.echo.approve.sent && 1 in s.echo.approve.sent
  {
  }

  lemma ApproveEvidence(s: State, v: int)
    requires LocalInv(s) && v in s.echo.approve.sent
    ensures IsBit(v)
    ensures |s.echo.from.At(v)| >= s.Quorum() || Forwarded(s.variant, s.proposals, v) || CoinVoted(s.variant, s.proposals, v)
  {
  }

  // ---- quorums of counted messages contain correct senders

  lemma Senders(g: Group, sys: System, p: Id, v: int)
    requires Provenance(g, sys) && p in sys
    ensures IsBit(v) ==> sys[p].echo.from.At(v) <= g.Members() && sys[p].vote.from.At(v) <= g.Members()
    ensures 0 <= v <= Bot ==> sys[p].bind.from.At(v) <= g.Members()
  {
    forall q | IsBit(v) && q in sys[p].echo.from.At(v) ensures q in g.Members() {
      assert Counted(sys[p], q, EchoMsg(v));
      assert Backed(g, sys, q, EchoMsg(v));
    }
    forall q | IsBit(v) && q in sys[p].vote.from.At(v) ensures q in g.Members() {
      assert Counted(sys[p], q, VoteMsg(v));
      assert Backed(g, sys, q, VoteMsg(v));
    }
    forall q | 0 <= v <= Bot && q in sys[p].bind.from.At(v) ensures q in g.Members() {
      assert Counted(sys[p], q, BindMsg(v));
      assert Backed(g, sys, q, BindMsg(v));
    }
  }

  lemma CorrectEcho(g: Group, sys: System, p: Id, v: int) returns (q: Id)
    requires g.Valid() && sys.Keys == g.correct && Provenance(g, sys)
    requires p in sys && IsBit(v) && |sys[p].echo.from.At(v)| > g.f
    ensures q in sys && v in sys[q].echo.bcast
  {
    Senders(g, sys, p, v);
    q := SomeCorrect(g, sys[p].echo.from.At(v));
    assert Counted(sys[p], q, EchoMsg(v));
    assert Backed(g, sys, q, EchoMsg(v));
  }

  lemma CorrectVote(g: Group, sys: System, p: Id, v: int) returns (q: Id)
    requires g.Valid() && sys.Keys == g.correct && Provenance(g, sys)
    requires p in sys && IsBit(v) && |sys[p].vote.from.At(v)| > g.f
    ensures q in sys && v in sys[q].vote.bcast
  {
    Senders(g, sys, p, v);
    q := SomeCorrect(g, sys[p].vote.from.At(v));
    assert Counted(sys[p], q, VoteMsg(v));
    assert Backed(g, sys, q, VoteMsg(v));
  }

  lemma CorrectBind(g: Group, sys: System, p: Id, v: int) returns (q: Id)
    requires g.Valid() && sys.Keys == g.correct && Provenance(g, sys)
    requires p in sys && 0 <= v <= Bot && |sys[p].bind.from.At(v)| > g.f
    ensures q in sys && v in sys[q].bind.bcast
  {
    Senders(g, sys, p, v);
    q := SomeCorrect(g, sys[p].bind.from.At(v));
    assert Counted(sys[p], q, BindMsg(v));
    assert Backed(g, sys, q, BindMsg(v));
  }

  // ---- agreement: no two correct nodes decide opposite values, in either variant

  lemma SharedBinder(g: Group, sys: System, p: Id, q: Id, v: int, w: int) returns (r: Id)
    requires g.Valid() && sys.Keys == g.correct && Provenance(g, sys)
    requires p in sys && q in sys && IsBit(v) && IsBit(w)
    requires |sys[p].bind.from.At(v)| >= g.n - g.f && |sys[q].bind.from.At(w)| >= g.n - g.f
    ensures r in sys && v in sys[r].bind.bcast && w in sys[r].bind.bcast
  {
    Senders(g, sys, p, v);
    Senders(g, sys, q, w);
    r := QuorumsMeet(g, sys[p].bind.from.At(v), sys[q].bind.from.At(w));
    assert Counted(sys[p], r, BindMsg(v)) && Counted(sys[q], r, BindMsg(w));
    assert Backed(g, sys, r, BindMsg(v)) && Backed(g, sys, r, BindMsg(w));
  }

  lemma Agreement(g: Group, variant: Variant, sys: System, p: Id, q: Id, v: int, w: int)
    requires Inv(g, variant, sys) && p in sys && q in sys
    requires v in sys[p].decide.output && w in sys[q].decide.output && IsBit(v) && IsBit(w)
    ensures v == w
  {
    assert NodeOk(g, variant, sys[p]) && NodeOk(g, variant, sys[q]);
    OutputEvidence(sys[p], v);
    OutputEvidence(sys[q], w);
    var r := SharedBinder(g, sys, p, q, v, w);
    assert NodeOk(g, variant, sys[r]);
    BindEvidence(sys[r], v);
    BindEvidence(sys[r], w);
  }

  // ---- unanimity: if every correct estimate is v, nothing but v is approved, voted, bound or decided

  ghost predicate AllEstimate(sys: System, v: int) {
    forall p, i :: p in sys && 0 <= i < |sys[p].proposals| ==> sys[p].proposals[i].est == v
  }

  lemma OnlyEchoed(sys: System, p: Id, v: int, w: int)
    requires EchoesRooted(sys) && AllEstimate(sys, v) && p in sys && w in sys[p].echo.bcast
    ensures w == v
  {
    assert Proposed(sys, w);
    var q :| q in sys && HasEstimate(sys[q].proposals, w);
    var i :| 0 <= i < |sys[q].proposals| && sys[q].proposals[i].est == w;
  }

  lemma OnlyProposal(sys: System, p: Id, v: int, x: Proposal)
    requires AllEstimate(sys, v) && p in sys && x in sys[p].proposals
    ensures x.est == v
  {
    var i :| 0 <= i < |sys[p].proposals| && sys[p].proposals[i] == x;
  }

  lemma OnlyApproved(g: Group, variant: Variant, sys: System, p: Id, v: int, w: int)
    requires Inv(g, variant, sys) && AllEstimate(sys, v) && IsBit(v)
    requires p in sys && w in sys[p].echo.approve.sent
    ensures w == v
  {
    assert NodeOk(g, variant, sys[p]);
    ApproveEvidence(sys[p], w);
    if |sys[p].echo.from.At(w)| >= sys[p].Quorum() {
      var q := CorrectEcho(g, sys, p, w);
      OnlyEchoed(sys, q, v, w);
    } else if Forwarded(variant, sys[p].proposals, w) {
      OnlyProposal(sys, p, v, Proposal(w, w));
    } else {
      OnlyProposal(sys, p, v, Proposal(Bot, w));
    }
  }

  lemma NotBoth(g: Group, variant: Variant, sys: System, p: Id, v: int)
    requires Inv(g, variant, sys) && AllEstimate(sys, v) && IsBit(v) && p in sys
    ensures !sys[p].vote.voter.SawBoth?
  {
    assert NodeOk(g, variant, sys[p]);
    if sys[p].vote.voter.SawBoth? {
      BothEvidence(sys[p]);
      OnlyApproved(g, variant, sys, p, v, 1 - v);
    }
  }

  lemma OnlyVoted(g: Group, variant: Variant, sys: System, p: Id, v: int, w: int)
    requires Inv(g, variant, sys) && AllEstimate(sys, v) && IsBit(v)
    requires p in sys && w in sys[p].vote.bcast
    ensures w == v
  {
    assert NodeOk(g, variant, sys[p]);
    VoteEvidence(sys[p], w);
    OnlyApproved(g, variant, sys, p, v, w);
  }

  lemma OnlyBound(g: Group, variant: Variant, sys: System, p: Id, v: int, w: int)
    requires Inv(g, variant, sys) && AllEstimate(sys, v) && IsBit(v)
    requires p in sys && w in sys[p].bind.bcast
    ensures w == v
  {
    assert NodeOk(g, variant, sys[p]);
    NotBoth(g, variant, sys, p, v);
    BindEvidence(sys[p], w);
    if |sys[p].vote.from.At(w)| >= sys[p].Quorum() {
      var q := CorrectVote(g, sys, p, w);
      OnlyVoted(g, variant, sys, q, v, w);
    } else {
      OnlyProposal(sys, p, v, Proposal(w, w));
    }
  }

  lemma OnlyDecided(g: Group, variant: Variant, sys: System, p: Id, v: int, d: int)
    requires Inv(g, variant, sys) && AllEstimate(sys, v) && IsBit(v)
    requires p in sys && d in sys[p].decide.output
    ensures d == v
  {
    assert NodeOk(g, variant, sys[p]);
    NotBoth(g, variant, sys, p, v);
    OutputEvidence(sys[p], d);
    var q := CorrectBind(g, sys, p, d);
    OnlyBound(g, variant, sys, q, v, d);
  }

  // The validity both variants promise, over every run: ivbca in its header comment, evbca when no
  // correct proposal carries the other value, whatever the previous coins were.
  lemma Unanimity(g: Group, variant: Variant, sys: System, v: int)
    requires g.Valid() && Reachable(g, variant, sys) && IsBit(v) && AllEstimate(sys, v)
    ensures forall p, w :: p in sys && w in sys[p].vote.bcast ==> w == v
    ensures forall p, w :: p in sys && w in sys[p].bind.bcast ==> w == v
    ensures forall p, d :: p in sys && d in sys[p].decide.output ==> d == v
  {
    ReachableInv(g, variant, sys);
    forall p, w | p in sys && w in sys[p].vote.bcast ensures w == v { OnlyVoted(g, variant, sys, p, v, w); }
    forall p, w | p in sys && w in sys[p].bind.bcast ensures w == v { OnlyBound(g, variant, sys, p, v, w); }
    forall p, d | p in sys && d in sys[p].decide.output ensures d == v { OnlyDecided(g, variant, sys, p, v, d); }
  }

  lemma CrusaderAgreement(g: Group, variant: Variant, sys: System)
    requires g.Valid() && Reachable(g, variant, sys)
    ensures forall p, q, v, w :: p in sys && q in sys && v in sys[p].decide.output && w in sys[q].decide.output ==>
              v == w || v == Bot || w == Bot
  {
    ReachableInv(g, variant, sys);
    forall p, q, v, w | p in sys && q in sys && v in sys[p].decide.output && w in sys[q].decide.output && v != Bot && w != Bot
      ensures v == w
    {
      assert NodeOk(g, variant, sys[p]) && NodeOk(g, variant, sys[q]);
      OutputEvidence(sys[p], v);
      OutputEvidence(sys[q], w);
      Agreement(g, variant, sys, p, q, v, w);
    }
  }

  // ---- binding (first-round variant)

  lemma SharedVoter(g: Group, sys: System, p: Id, q: Id, v: int, w: int) returns (r: Id)
    requires g.Valid() && sys.Keys == g.correct && Provenance(g, sys)
    requires p in sys && q in sys && IsBit(v) && IsBit(w)
    requires |sys[p].vote.from.At(v)| >= g.n - g.f && |sys[q].vote.from.At(w)| >= g.n - g.f
    ensures r in sys && v in sys[r].vote.bcast && w in sys[r].vote.bcast
  {
    Senders(g, sys, p, v);
    Senders(g, sys, q, w);
    r := QuorumsMeet(g, sys[p].vote.from.At(v), sys[q].vote.from.At(w));
    assert Counted(sys[p], r, VoteMsg(v)) && Counted(sys[q], r, VoteMsg(w));
    assert Backed(g, sys, r, VoteMsg(v)) && Backed(g, sys, r, VoteMsg(w));
  }

  lemma BindsAgree(g: Group, sys: System, p: Id, q: Id, v: int, w: int)
    requires Inv(g, Internal, sys) && p in sys && q in sys
    requires v in sys[p].bind.bcast && w in sys[q].bind.bcast && v != Bot && w != Bot
    ensures v == w
  {
    assert NodeOk(g, Internal, sys[p]) && NodeOk(g, Internal, sys[q]);
    BindEvidence(sys[p], v);
    BindEvidence(sys[q], w);
    var r := SharedVoter(g, sys, p, q, v, w);
    assert NodeOk(g, Internal, sys[r]);
    VoteEvidence(sys[r], v);
    VoteEvidence(sys[r], w);
  }

  ghost predicate SomeoneBound(sys: System, v: int) {
    exists p :: p in sys && v in sys[p].bind.bcast
  }

  // The value fixed once somebody has decided: opposite to a value some correct node has bound.
  ghost function Excluded(sys: System): int {
    if SomeoneBound(sys, 0) then 1 else 0
  }

  ghost function Binders(g: Group, sys: System): set<Id>
    requires sys.Keys == g.correct
  {
    set p | p in g.correct && sys[p].bind.bcast != []
  }

  // A decision, even of bot, means at least n - f - |faulty| correct nodes have bound.
  lemma DecisionNeedsBinders(g: Group, sys: System, p: Id, d: int)
    requires Inv(g, Internal, sys) && p in sys && d in sys[p].decide.output
    ensures |Binders(g, sys)| >= g.n - g.f - |g.faulty|
  {
    assert NodeOk(g, Internal, sys[p]);
    OutputEvidence(sys[p], d);
    var b := sys[p].bind.from;
    var all := b.zero + b.one + b.bot;
    Senders(g, sys, p, 0);
    Senders(g, sys, p, 1);
    Senders(g, sys, p, Bot);
    BindSetsDisjoint(sys[p]);
    CorrectPart(g, all);
    forall q | q in all * g.correct ensures q in Binders(g, sys) {
      var v := if q in b.zero then 0 else if q in b.one then 1 else Bot;
      assert Counted(sys[p], q, BindMsg(v));
      assert Backed(g, sys, q, BindMsg(v));
    }
    SubsetSize(all * g.correct, Binders(g, sys));
  }

  lemma BindSetsDisjoint(s: State)
    requires LocalInv(s)
    ensures var b := s.bind.from; |b.zero + b.one + b.bot| == Total(b)
  {
    var b := s.bind.from;
    assert |b.zero + b.one| == |b.zero| + |b.one|;
    assert |b.zero + b.one + b.bot| == |b.zero + b.one| + |b.bot|;
  }

  // Later states keep every broadcast bind.
  lemma {:induction false} BindsKept(g: Group, path: seq<System>, i: nat, p: Id)
    requires Path(g, path) && p in path[0] && i < |path|
    ensures p in path[i] && path[0][p].bind.bcast <= path[i][p].bind.bcast
  {
    if i > 0 {
      BindsKept(g, path, i - 1, p);
      assert Next(g, path[i - 1], path[i - 1 + 1]);
      var q, a :| Step(g, path[i - 1], q, a, path[i]);
      ActionFrame(path[i - 1][q], a);
    }
  }

  // Case 1: a correct node had bound the other value.
  lemma ExcludedByBind(g: Group, sys: System, p: Id, q: Id, v: int, w: int)
    requires Inv(g, Internal, sys) && p in sys && q in sys && IsBit(v) && IsBit(w) && v != w
    requires w in sys[q].bind.bcast
    ensures v !in sys[p].decide.output
  {
    if v in sys[p].decide.output {
      var r := DecidedBound(g, sys, p, v);
      BindsAgree(g, sys, q, r, w, v);
    }
  }

  lemma DecidedBound(g: Group, sys: System, p: Id, v: int) returns (r: Id)
    requires Inv(g, Internal, sys) && p in sys && IsBit(v) && v in sys[p].decide.output
    ensures r in sys && v in sys[r].bind.bcast
  {
    assert NodeOk(g, Internal, sys[p]);
    OutputEvidence(sys[p], v);
    r := CorrectBind(g, sys, p, v);
  }

  // Case 2: so many correct nodes are bound to bot that no value can still reach a quorum.
  lemma ExcludedByCount(g: Group, sys: System, p: Id, v: int, bots: set<Id>)
    requires Inv(g, Internal, sys) && p in sys && IsBit(v)
    requires bots <= g.correct && |bots| >= g.n - g.f - |g.faulty|
    requires forall q :: q in bots ==> sys[q].bind.bcast == [Bot]
    ensures v !in sys[p].decide.output
  {
    if v in sys[p].decide.output {
      assert NodeOk(g, Internal, sys[p]);
      OutputEvidence(sys[p], v);
      Senders(g, sys, p, v);
      BotsOutside(g, sys, p, v, bots);
      FewOthers(g, sys[p].bind.from.At(v), bots);
    }
  }

  lemma BotsOutside(g: Group, sys: System, p: Id, v: int, bots: set<Id>)
    requires Provenance(g, sys) && sys.Keys == g.correct && p in sys && IsBit(v) && bots <= g.correct
    requires forall q :: q in bots ==> sys[q].bind.bcast == [Bot]
    ensures sys[p].bind.from.At(v) !! bots
  {
    forall q | q in sys[p].bind.from.At(v) ensures q !in bots {
      assert Counted(sys[p], q, BindMsg(v));
      assert Backed(g, sys, q, BindMsg(v));
    }
  }

  lemma FewOthers(g: Group, quorum: set<Id>, bots: set<Id>)
    requires g.Valid() && quorum <= g.Members() && bots <= g.correct && quorum !! bots
    requires |bots| >= g.n - g.f - |g.faulty|
    ensures |quorum| < g.n - g.f
  {
    CorrectQuorum(g);
    assert |g.Members() - bots| == g.n - |bots|;
    SubsetSize(quorum, g.Members() - bots);
  }

  // From the state in which some correct node has decided (even bot), one binary value is fixed that
  // no correct node decides in any continuation, whatever the faulty nodes send next.
  lemma Binding(g: Group, sys: System, p: Id, d: int)
    requires g.Valid() && Reachable(g, Internal, sys) && p in sys && d in sys[p].decide.output
    ensures IsBit(Excluded(sys))
    ensures forall sys': System, q :: Leads(g, sys, sys') && q in sys' ==> Excluded(sys) !in sys'[q].decide.output
  {
    ReachableInv(g, Internal, sys);
    forall sys': System, q | Leads(g, sys, sys') && q in sys'
      ensures Excluded(sys) !in sys'[q].decide.output
    {
      var path :| Path(g, path) && path[0] == sys && path[|path| - 1] == sys';
      BindingOnPath(g, path, p, d, q);
    }
  }

  lemma BindingOnPath(g: Group, path: seq<System>, p: Id, d: int, q: Id)
    requires Path(g, path) && Inv(g, Internal, path[0])
    requires p in path[0] && d in path[0][p].decide.output && q in path[|path| - 1]
    ensures Excluded(path[0]) !in path[|path| - 1][q].decide.output
  {
    var sys, v := path[0], Excluded(path[0]);
    PathInv(g, Internal, path, |path| - 1);
    if SomeoneBound(sys, 1 - v) {
      SomebodyBound(g, path, path[|path| - 1], q, v, 1 - v);
    } else {
      DecisionNeedsBinders(g, sys, p, d);
      NobodyBound(g, path, q);
    }
  }

  lemma SomebodyBound(g: Group, path: seq<System>, sys': System, q: Id, v: int, w: int)
    requires Path(g, path) && sys' == path[|path| - 1] && Inv(g, Internal, sys') && q in sys'
    requires SomeoneBound(path[0], w) && IsBit(v) && IsBit(w) && v != w
    ensures v !in sys'[q].decide.output
  {
    var r :| r in path[0] && w in path[0][r].bind.bcast;
    BindsKept(g, path, |path| - 1, r);
    ExcludedByBind(g, sys', q, r, v, w);
  }

  lemma NobodyBound(g: Group, path: seq<System>, q: Id)
    requires Path(g, path) && Inv(g, Internal, path[0]) && Inv(g, Internal, path[|path| - 1]) && q in path[|path| - 1]
    requires !SomeoneBound(path[0], 0) && !SomeoneBound(path[0], 1)
    requires |Binders(g, path[0])| >= g.n - g.f - |g.faulty|
    ensures 0 !in path[|path| - 1][q].decide.output
  {
    var sys, sys' := path[0], path[|path| - 1];
    forall r | r in Binders(g, sys) ensures sys'[r].bind.bcast == [Bot] {
      StillBot(g, path, r);
    }
    ExcludedByCount(g, sys', q, 0, Binders(g, sys));
  }

  lemma StillBot(g: Group, path: seq<System>, r: Id)
    requires Path(g, path) && Inv(g, Internal, path[0]) && r in Binders(g, path[0])
    requires !SomeoneBound(path[0], 0) && 1 !in path[0][r].bind.bcast
    ensures var sys' := path[|path| - 1]; r in sys' && sys'[r].bind.bcast == [Bot]
  {
    var sys, sys' := path[0], path[|path| - 1];
    assert NodeOk(g, Internal, sys[r]);
    var b := sys[r].bind.bcast[0];
    BindEvidence(sys[r], b);
    BindsKept(g, path, |path| - 1, r);
    PathInv(g, Internal, path, |path| - 1);
    assert NodeOk(g, Internal, sys'[r]);
    BindEvidence(sys'[r], b);
  }
}
