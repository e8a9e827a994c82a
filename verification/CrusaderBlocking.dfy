/** The later-round variant can block where the first-round one cannot. bindValChan has room for one item
    and waitToBind takes at most one, so a handler that finds it full waits for ever once waitToBind is
    over. When that happens, over every run. */
module CrusaderBlocking {
  import opened Quorums
  import opened CrusaderNode
  import opened CrusaderInvariants
  import opened CrusaderRuns
  import opened CrusaderStretches

  // A send on bindValChan has found it full, and nobody will make room.
  predicate Blocked(s: State) {
    s.bind.done && |s.vote.bindVal.sent| - s.vote.bindVal.taken > 1
  }

  // How often propose took the fast path.
  function Forwards(ps: seq<Proposal>): nat {
    if ps == [] then 0
    else
      var p := ps[|ps| - 1];
      Forwards(ps[..|ps| - 1]) + if p.est == p.coin then 1 else 0
  }

  function VoteQuorums(q: int, votes: PerBit<set<Id>>): nat {
    if |votes.zero| >= q || |votes.one| >= q then 1 else 0
  }

  // What was sent on bindValChan, and what was taken from it.
  ghost predicate BindSends(variant: Variant, q: int, ps: seq<Proposal>, w: VoteStage) {
    |w.bindVal.sent| == (if variant == External then Forwards(ps) else 0) + VoteQuorums(q, w.from)
  }

  ghost predicate BindTakes(taken: nat, b: BindStage) {
    taken == if b.done && b.bcast != [Bot] then 1 else 0
  }

  ghost predicate BindTraffic(s: State) {
    BindSends(s.variant, s.Quorum(), s.proposals, s.vote) && BindTakes(s.vote.bindVal.taken, s.bind)
  }

  lemma ForwardsBack(ps: seq<Proposal>, p: Proposal)
    ensures Forwards(ps + [p]) == Forwards(ps) + if p.est == p.coin then 1 else 0
  {
    assert (ps + [p])[..|ps|] == ps;
  }

  lemma ProposeTraffic(s: State, est: int, coin: int)
    requires BindTraffic(s)
    ensures BindTraffic(Propose(s, est, coin))
  {
    ForwardsBack(s.proposals, Proposal(est, coin));
  }

  lemma VoteSends(variant: Variant, q: int, ps: seq<Proposal>, w: VoteStage, v: int, from: Id)
    requires BindSends(variant, q, ps, w) && VoteAccepted(w, v, from)
    ensures BindSends(variant, q, ps, CountVote(q, w, v, from)) && CountVote(q, w, v, from).bindVal.taken == w.bindVal.taken
  {
  }

  lemma HandleTraffic(s: State, from: Id, msg: Message)
    requires BindTraffic(s)
    ensures BindTraffic(Handle(s, from, msg))
  {
    if msg.VoteMsg? && VoteAccepted(s.vote, msg.v, from) {
      VoteSends(s.variant, s.Quorum(), s.proposals, s.vote, msg.v, from);
    }
  }

  lemma WorkSends(s: State, job: Job)
    requires Enabled(s, job)
    ensures var t := Work(s, job);
            t.proposals == s.proposals && t.vote.from == s.vote.from && t.vote.bindVal.sent == s.vote.bindVal.sent
  {
  }

  // waitToBind takes at most once, and only bits are there to take.
  lemma WorkTakes(s: State, job: Job)
    requires LocalInv(s) && Enabled(s, job) && BindTakes(s.vote.bindVal.taken, s.bind)
    ensures var t := Work(s, job); BindTakes(t.vote.bindVal.taken, t.bind)
  {
    assert job.BindBot? || job.BindVal? ==> s.bind.bcast == [];
    assert job.BindVal? ==> IsBit(s.vote.bindVal.Head());
    if job.BindBot? || job.BindVal? {
      var b := Work(s, job).bind;
      assert b.bcast[0] == (if job.BindBot? then Bot else s.vote.bindVal.Head());
    }
  }

  lemma ActionTraffic(s: State, a: Action)
    requires LocalInv(s) && Can(s, a) && BindTraffic(s)
    ensures BindTraffic(Apply(s, a))
  {
    match a
    case Start(est, coin) => ProposeTraffic(s, est, coin);
    case Receive(from, msg) => HandleTraffic(s, from, msg);
    case Run(job) =>
      WorkSends(s, job);
      WorkTakes(s, job);
      WorkFrame(s, job);
  }

  lemma {:induction false} TrafficAfter(s: State, actions: seq<Action>)
    requires LocalInv(s) && Runs(s, actions) && BindTraffic(s)
    ensures LocalInv(After(s, actions)) && BindTraffic(After(s, actions))
    decreases |actions|
  {
    if actions != [] {
      ApplyInv(s, actions[0]);
      ActionTraffic(s, actions[0]);
      TrafficAfter(Apply(s, actions[0]), actions[1..]);
    }
  }

  /** Over every run of a later-round node: how much is ever sent on bindValChan, and that the node is
      blocked exactly when waitToBind is over and that exceeds what it took by more than the one place. */
  lemma BlockedExactly(n: nat, f: nat, actions: seq<Action>)
    requires f < n && Runs(Fresh(External, n, f), actions)
    ensures var s := After(Fresh(External, n, f), actions);
            var sends := Forwards(s.proposals) + VoteQuorums(n - f, s.vote.from);
            && |s.vote.bindVal.sent| == sends
            && (Blocked(s) <==> s.bind.done && sends > if s.bind.bcast == [Bot] then 1 else 2)
  {
    FreshInv(External, n, f);
    TrafficAfter(Fresh(External, n, f), actions);
    FrameAfter(Fresh(External, n, f), actions);
  }

  lemma ActionStaysBlocked(s: State, a: Action)
    requires LocalInv(s) && Can(s, a) && Blocked(s)
    ensures Blocked(Apply(s, a))
  {
  }

  // Once blocked, for ever blocked.
  lemma {:induction false} StaysBlocked(s: State, actions: seq<Action>)
    requires LocalInv(s) && Runs(s, actions) && Blocked(s)
    ensures Blocked(After(s, actions))
    decreases |actions|
  {
    if actions != [] {
      ApplyInv(s, actions[0]);
      ActionStaysBlocked(s, actions[0]);
      StaysBlocked(Apply(s, actions[0]), actions[1..]);
    }
  }

  // ---- in a group

  ghost predicate AllTraffic(sys: System) {
    forall p :: p in sys ==> BindTraffic(sys[p])
  }

  lemma NextTraffic(g: Group, variant: Variant, sys: System, sys': System)
    requires Inv(g, variant, sys) && AllTraffic(sys) && Next(g, sys, sys')
    ensures AllTraffic(sys')
  {
    var p, a :| Step(g, sys, p, a, sys');
    assert NodeOk(g, variant, sys[p]);
    ActionTraffic(sys[p], a);
  }

  lemma {:induction false} PathTraffic(g: Group, variant: Variant, path: seq<System>, i: nat)
    requires Path(g, path) && Inv(g, variant, path[0]) && AllTraffic(path[0]) && i < |path|
    ensures AllTraffic(path[i])
  {
    if i > 0 {
      var k := i - 1;
      PathTraffic(g, variant, path, k);
      PathNext(g, path, k);
      PathInv(g, variant, path, k);
      NextTraffic(g, variant, path[k], path[k + 1]);
    }
  }

  lemma ReachableTraffic(g: Group, variant: Variant, sys: System)
    requires g.Valid() && Reachable(g, variant, sys)
    ensures AllTraffic(sys)
  {
    var path :| Path(g, path) && path[0] == Initial(g, variant) && path[|path| - 1] == sys;
    InitialInv(g, variant);
    PathTraffic(g, variant, path, |path| - 1);
  }
}
