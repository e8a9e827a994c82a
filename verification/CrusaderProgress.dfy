/** The first-round crusader agreement cannot get stuck: what holds once every correct message has
    been processed everywhere and no goroutine of a correct node has anything left to take. */
module CrusaderProgress {
  import opened Quorums
  import opened CrusaderNode
  import opened CrusaderInvariants
  import opened CrusaderRuns
  import opened CrusaderSafety

  ghost predicate Quiet(s: State) {
    forall j :: !Enabled(s, j)
  }

  ghost predicate Settled(sys: System) {
    && (forall p :: p in sys ==> Quiet(sys[p]) && sys[p].proposals != [])
    && (forall p, q, m :: p in sys && q in sys && Sent(sys[q], m) ==> Counted(sys[p], q, m))
  }

  ghost predicate HasDecided(s: State) {
    s.decide.output != []
  }

  // What a quiet node must have done with each channel.
  lemma QuietNode(s: State)
    requires LocalInv(s) && s.variant == Internal && Quiet(s)
    ensures s.echo.approve.sent != [] ==> s.vote.bcast != []
    ensures 0 in s.echo.approve.sent && 1 in s.echo.approve.sent ==> s.vote.voter.SawBoth? || s.vote.voter.Unblocked?
    ensures s.vote.voter.SawBoth? || s.vote.bindVal.sent != [] ==> s.bind.done
    ensures s.bind.done <==> s.bind.bcast != []
    ensures s.bind.termVal.sent != [] || |s.bind.termBot.sent| >= 2 || s.vote.voter.Unblocked? ==> HasDecided(s)
  {
    assert !Enabled(s, VoteFirst) && !Enabled(s, VoteSecond) && !Enabled(s, BindBot) && !Enabled(s, BindVal);
    assert !Enabled(s, DecideVal) && !Enabled(s, DecideBot);
    if 0 in s.echo.approve.sent && 1 in s.echo.approve.sent {
      assert |s.echo.approve.sent| >= 2;
    }
  }

  // ---- echoes

  lemma EchoersCounted(g: Group, sys: System, p: Id, v: int, a: set<Id>)
    requires Settled(sys) && sys.Keys == g.correct && p in sys && IsBit(v)
    requires a <= g.correct && forall q :: q in a ==> v in sys[q].echo.bcast
    ensures |sys[p].echo.from.At(v)| >= |a|
  {
    forall q | q in a ensures q in sys[p].echo.from.At(v) {
      assert Sent(sys[q], EchoMsg(v));
      assert Counted(sys[p], q, EchoMsg(v));
    }
    SubsetSize(a, sys[p].echo.from.At(v));
  }

  lemma AmplifiedEcho(s: State, v: int)
    requires LocalInv(s) && s.variant == Internal && IsBit(v)
    ensures |s.echo.from.At(v)| > s.f ==> v in s.echo.bcast
    ensures |s.echo.from.At(v)| >= s.Quorum() ==> v in s.echo.approve.sent
  {
  }

  // f + 1 correct echoes of a value make every correct node approve it.
  lemma EchoSpreads(g: Group, sys: System, v: int, a: set<Id>)
    requires g.Valid() && Reachable(g, Internal, sys) && Settled(sys) && IsBit(v)
    requires a <= sys.Keys && a <= g.correct && |a| > g.f && forall q :: q in a ==> v in sys[q].echo.bcast
    ensures forall p :: p in sys ==> v in sys[p].echo.approve.sent
  {
    ReachableInv(g, Internal, sys);
    forall p | p in sys ensures v in sys[p].echo.bcast {
      assert NodeOk(g, Internal, sys[p]);
      EchoersCounted(g, sys, p, v, a);
      AmplifiedEcho(sys[p], v);
    }
    CorrectQuorum(g);
    forall p | p in sys ensures v in sys[p].echo.approve.sent {
      assert NodeOk(g, Internal, sys[p]);
      EchoersCounted(g, sys, p, v, g.correct);
      AmplifiedEcho(sys[p], v);
    }
  }

  lemma ApprovedByAll(g: Group, sys: System, p: Id, v: int)
    requires g.Valid() && Reachable(g, Internal, sys) && Settled(sys) && p in sys && v in sys[p].echo.approve.sent
    ensures forall q :: q in sys ==> v in sys[q].echo.approve.sent
  {
    ReachableInv(g, Internal, sys);
    assert NodeOk(g, Internal, sys[p]);
    ApproveEvidence(sys[p], v);
    Senders(g, sys, p, v);
    var a := sys[p].echo.from.At(v) * g.correct;
    CorrectPart(g, sys[p].echo.from.At(v));
    forall q | q in a ensures v in sys[q].echo.bcast {
      assert Counted(sys[p], q, EchoMsg(v));
      assert Backed(g, sys, q, EchoMsg(v));
    }
    EchoSpreads(g, sys, v, a);
  }

  lemma StartedEchoes(s: State)
    requires LocalInv(s) && s.variant == Internal && s.proposals != []
    ensures 0 in s.echo.bcast || 1 in s.echo.bcast
  {
    assert HasEstimate(s.proposals, s.proposals[0].est);
  }

  lemma SomeApproved(g: Group, sys: System) returns (v: int)
    requires g.Valid() && Reachable(g, Internal, sys) && Settled(sys)
    ensures IsBit(v) && forall p :: p in sys ==> v in sys[p].echo.approve.sent
  {
    ReachableInv(g, Internal, sys);
    var zeros := set p | p in g.correct && 0 in sys[p].echo.bcast;
    var ones := set p | p in g.correct && 1 in sys[p].echo.bcast;
    forall p | p in g.correct ensures p in zeros + ones {
      assert NodeOk(g, Internal, sys[p]);
      StartedEchoes(sys[p]);
    }
    SubsetSize(g.correct, zeros + ones);
    UnionSize(zeros, ones);
    CorrectQuorum(g);
    if |zeros| > g.f {
      v := 0;
      EchoSpreads(g, sys, 0, zeros);
    } else {
      v := 1;
      EchoSpreads(g, sys, 1, ones);
    }
  }

  // ---- votes and binds when only one value is approved

  lemma AllVote(g: Group, sys: System, p: Id, v: int)
    requires g.Valid() && Reachable(g, Internal, sys) && Settled(sys) && p in sys
    requires v in sys[p].echo.approve.sent && 1 - v !in sys[p].echo.approve.sent && IsBit(v)
    ensures forall q :: q in sys ==> sys[q].vote.bcast == [v]
  {
    ReachableInv(g, Internal, sys);
    ApprovedByAll(g, sys, p, v);
    forall q | q in sys ensures sys[q].vote.bcast == [v] {
      assert NodeOk(g, Internal, sys[q]);
      QuietNode(sys[q]);
      var w := sys[q].vote.bcast[0];
      VoteEvidence(sys[q], w);
      ApproveEvidence(sys[q], w);
      ApprovedByAll(g, sys, q, w);
    }
  }

  lemma AllBind(g: Group, sys: System, p: Id, v: int)
    requires g.Valid() && Reachable(g, Internal, sys) && Settled(sys) && p in sys
    requires v in sys[p].echo.approve.sent && 1 - v !in sys[p].echo.approve.sent && IsBit(v)
    ensures forall q :: q in sys ==> sys[q].bind.bcast == [v]
  {
    ReachableInv(g, Internal, sys);
    AllVote(g, sys, p, v);
    forall q | q in sys ensures sys[q].bind.bcast == [v] {
      BindsWhenUnanimous(g, sys, p, q, v);
    }
  }

  lemma VoteQuorumBinds(s: State, v: int)
    requires LocalInv(s) && IsBit(v) && |s.vote.from.At(v)| >= s.Quorum()
    ensures s.vote.bindVal.sent != []
  {
  }

  lemma UnanimousVotesBind(g: Group, sys: System, q: Id, v: int)
    requires g.Valid() && Reachable(g, Internal, sys) && Settled(sys) && q in sys && IsBit(v)
    requires forall r :: r in sys ==> sys[r].vote.bcast == [v]
    ensures sys[q].bind.bcast != []
  {
    ReachableInv(g, Internal, sys);
    forall r | r in g.correct ensures r in sys[q].vote.from.At(v) {
      assert Sent(sys[r], VoteMsg(v));
      assert Counted(sys[q], r, VoteMsg(v));
    }
    CorrectQuorum(g);
    SubsetSize(g.correct, sys[q].vote.from.At(v));
    assert NodeOk(g, Internal, sys[q]);
    VoteQuorumBinds(sys[q], v);
    QuietNode(sys[q]);
  }

  lemma BoundToVotes(g: Group, sys: System, q: Id, v: int, b: int)
    requires g.Valid() && Reachable(g, Internal, sys) && q in sys && b in sys[q].bind.bcast
    requires forall r :: r in sys ==> sys[r].vote.bcast == [v]
    ensures sys[q].bind.bcast == [b]
    ensures b == v || sys[q].vote.voter.SawBoth?
  {
    ReachableInv(g, Internal, sys);
    assert NodeOk(g, Internal, sys[q]);
    BindEvidence(sys[q], b);
    if b != Bot {
      var r := CorrectVote(g, sys, q, b);
    }
  }

  lemma OneApproved(g: Group, sys: System, p: Id, q: Id, v: int)
    requires g.Valid() && Reachable(g, Internal, sys) && Settled(sys) && p in sys && q in sys && IsBit(v)
    requires 1 - v !in sys[p].echo.approve.sent
    ensures !sys[q].vote.voter.SawBoth?
  {
    ReachableInv(g, Internal, sys);
    if sys[q].vote.voter.SawBoth? {
      assert NodeOk(g, Internal, sys[q]);
      BothEvidence(sys[q]);
      ApprovedByAll(g, sys, q, 1 - v);
    }
  }

  lemma BindsWhenUnanimous(g: Group, sys: System, p: Id, q: Id, v: int)
    requires g.Valid() && Reachable(g, Internal, sys) && Settled(sys) && p in sys && q in sys && IsBit(v)
    requires 1 - v !in sys[p].echo.approve.sent
    requires forall r :: r in sys ==> sys[r].vote.bcast == [v]
    ensures sys[q].bind.bcast == [v]
  {
    ReachableInv(g, Internal, sys);
    UnanimousVotesBind(g, sys, q, v);
    BoundToVotes(g, sys, q, v, sys[q].bind.bcast[0]);
    OneApproved(g, sys, p, q, v);
  }

  // ---- decisions

  lemma AllBindsCounted(g: Group, sys: System, p: Id, a: set<Id>)
    requires g.Valid() && Reachable(g, Internal, sys) && Settled(sys) && p in sys
    requires a <= sys.Keys && a <= g.correct && forall q :: q in a ==> sys[q].bind.bcast != []
    ensures Total(sys[p].bind.from) >= |a|
  {
    ReachableInv(g, Internal, sys);
    var b := sys[p].bind.from;
    forall q | q in a ensures q in b.zero + b.one + b.bot {
      assert NodeOk(g, Internal, sys[q]);
      var v := sys[q].bind.bcast[0];
      BindEvidence(sys[q], v);
      assert Sent(sys[q], BindMsg(v));
      assert Counted(sys[p], q, BindMsg(v));
    }
    assert NodeOk(g, Internal, sys[p]);
    BindSetsDisjoint(sys[p]);
    SubsetSize(a, b.zero + b.one + b.bot);
  }

  lemma BindQuorumDecides(s: State, v: int)
    requires LocalInv(s) && 0 <= v <= Bot && |s.bind.from.At(v)| >= s.Quorum()
    ensures s.bind.termVal.sent != []
  {
  }

  // With one value approved, every correct node decides it.
  lemma DecidesWhenUnanimous(g: Group, sys: System, p: Id, v: int)
    requires g.Valid() && Reachable(g, Internal, sys) && Settled(sys) && p in sys
    requires v in sys[p].echo.approve.sent && 1 - v !in sys[p].echo.approve.sent && IsBit(v)
    ensures HasDecided(sys[p])
  {
    ReachableInv(g, Internal, sys);
    AllBind(g, sys, p, v);
    forall r | r in g.correct ensures r in sys[p].bind.from.At(v) {
      assert Sent(sys[r], BindMsg(v));
      assert Counted(sys[p], r, BindMsg(v));
    }
    CorrectQuorum(g);
    SubsetSize(g.correct, sys[p].bind.from.At(v));
    assert NodeOk(g, Internal, sys[p]);
    BindQuorumDecides(sys[p], v);
    QuietNode(sys[p]);
  }

  lemma SignalsDecide(s: State)
    requires LocalInv(s) && s.variant == Internal && Quiet(s)
    requires s.vote.voter.SawBoth? || s.vote.voter.Unblocked?
    requires Total(s.bind.from) >= s.Quorum()
    ensures HasDecided(s)
  {
    QuietNode(s);
  }

  lemma OneNode(g: Group, sys: System, p: Id)
    requires g.Valid() && Reachable(g, Internal, sys) && p in sys
    ensures LocalInv(sys[p]) && sys[p].variant == Internal && sys[p].n == g.n && sys[p].f == g.f
  {
    ReachableInv(g, Internal, sys);
    assert NodeOk(g, Internal, sys[p]);
  }

  lemma DecidedCounted(s: State)
    requires LocalInv(s) && HasDecided(s)
    ensures Total(s.bind.from) >= s.Quorum()
  {
    OutputEvidence(s, s.decide.output[0]);
  }

  // Exactly when a correct node has decided in a settled state: when it has counted n - f binds.
  lemma DecidedExactly(g: Group, sys: System, p: Id)
    requires g.Valid() && Reachable(g, Internal, sys) && Settled(sys) && p in sys
    ensures HasDecided(sys[p]) <==> Total(sys[p].bind.from) >= g.n - g.f
  {
    OneNode(g, sys, p);
    if HasDecided(sys[p]) {
      DecidedCounted(sys[p]);
    } else if Total(sys[p].bind.from) >= g.n - g.f {
      var v := SomeApproved(g, sys);
      if 1 - v in sys[p].echo.approve.sent {
        QuietNode(sys[p]);
        SignalsDecide(sys[p]);
      } else {
        DecidesWhenUnanimous(g, sys, p, v);
      }
    }
  }

  // A correct node fails to bind only by leaving waitToVote through unblockChan.
  lemma BoundUnlessUnblocked(g: Group, sys: System, p: Id)
    requires g.Valid() && Reachable(g, Internal, sys) && Settled(sys) && p in sys
    ensures sys[p].bind.bcast != [] || (sys[p].vote.voter.Unblocked? && HasDecided(sys[p]))
  {
    ReachableInv(g, Internal, sys);
    assert NodeOk(g, Internal, sys[p]);
    QuietNode(sys[p]);
    var v := SomeApproved(g, sys);
    if 1 - v !in sys[p].echo.approve.sent {
      AllBind(g, sys, p, v);
    }
  }

  // In every settled state some correct node has decided.
  lemma NeverStuck(g: Group, sys: System)
    requires g.Valid() && Reachable(g, Internal, sys) && Settled(sys)
    ensures exists p :: p in sys && HasDecided(sys[p])
  {
    ReachableInv(g, Internal, sys);
    CorrectQuorum(g);
    assert g.correct != {};
    var p :| p in g.correct;
    if !HasDecided(sys[p]) {
      forall q | q in sys && sys[q].bind.bcast == [] ensures HasDecided(sys[q]) {
        BoundUnlessUnblocked(g, sys, q);
      }
      if forall q :: q in sys ==> sys[q].bind.bcast != [] {
        AllBindsCounted(g, sys, p, g.correct);
        DecidedExactly(g, sys, p);
      }
    }
  }

  // And all of them have, if none left waitToVote through unblockChan without binding.
  lemma AllDecide(g: Group, sys: System)
    requires g.Valid() && Reachable(g, Internal, sys) && Settled(sys)
    requires forall p :: p in sys && sys[p].vote.voter.Unblocked? ==> sys[p].bind.bcast != []
    ensures forall p :: p in sys ==> HasDecided(sys[p])
  {
    ReachableInv(g, Internal, sys);
    CorrectQuorum(g);
    forall q | q in sys ensures sys[q].bind.bcast != [] {
      BoundUnlessUnblocked(g, sys, q);
    }
    forall p | p in sys ensures HasDecided(sys[p]) {
      AllBindsCounted(g, sys, p, g.correct);
      DecidedExactly(g, sys, p);
    }
  }
}
