/** What every step of one crusader node keeps, whatever its peers send. Each fact names only the
    fields it is about, so a step leaves the facts about the other fields as they were. */
module CrusaderInvariants {
  import opened Quorums
  import opened CrusaderNode

  ghost predicate Distinct(q: seq<int>) {
    forall i, j :: 0 <= i < j < |q| ==> q[i] != q[j]
  }

  ghost predicate Bits(q: seq<int>) {
    forall i :: 0 <= i < |q| ==> IsBit(q[i])
  }

  ghost predicate HasEstimate(ps: seq<Proposal>, v: int) {
    exists i :: 0 <= i < |ps| && ps[i].est == v
  }

  // The paths of evbca that skip a quorum: fastForward, and voteOnCoin.
  ghost predicate Forwarded(variant: Variant, ps: seq<Proposal>, v: int) {
    variant == External && Proposal(v, v) in ps
  }

  ghost predicate CoinVoted(variant: Variant, ps: seq<Proposal>, v: int) {
    variant == External && Proposal(Bot, v) in ps
  }

  ghost predicate EchoFact(variant: Variant, f: nat, sent: bool, echoed: set<Id>, bcast: seq<int>, ps: seq<Proposal>, v: int) {
    && (v in bcast ==> sent && (HasEstimate(ps, v) || |echoed| > f))
    && (|echoed| > f ==> sent)
    && (variant == Internal && sent ==> v in bcast)
    && (variant == Internal && HasEstimate(ps, v) ==> sent)
  }

  ghost predicate EchoFacts(variant: Variant, f: nat, sent: PerBit<bool>, echoes: PerBit<set<Id>>, bcast: seq<int>, ps: seq<Proposal>) {
    && Bits(bcast) && Distinct(bcast)
    && EchoFact(variant, f, sent.zero, echoes.zero, bcast, ps, 0)
    && EchoFact(variant, f, sent.one, echoes.one, bcast, ps, 1)
    && (variant == Internal ==> forall i :: 0 <= i < |ps| ==> IsBit(ps[i].est))
  }

  ghost predicate ApproveFact(variant: Variant, q: int, echoed: set<Id>, approved: seq<int>, ps: seq<Proposal>, v: int) {
    && (v in approved ==> |echoed| >= q || Forwarded(variant, ps, v) || CoinVoted(variant, ps, v))
    && (|echoed| >= q ==> v in approved)
  }

  ghost predicate ApproveFacts(variant: Variant, q: int, echoes: PerBit<set<Id>>, approved: seq<int>, extValid: seq<int>, ps: seq<Proposal>) {
    && Bits(approved)
    && ApproveFact(variant, q, echoes.zero, approved, ps, 0)
    && ApproveFact(variant, q, echoes.one, approved, ps, 1)
    && (variant == Internal ==> Distinct(approved) && extValid == approved)
  }

  ghost predicate VoterFacts(variant: Variant, voter: Voter, approve: Chan<int>, bcast: seq<int>, bindBot: seq<()>, decided: bool) {
    && approve.taken <= |approve.sent|
    && bindBot == (if voter.SawBoth? then [()] else [])
    && (match voter
        case AwaitFirst =>
          approve.taken == 0 && bcast == []
        case AwaitSecond(first) =>
          && approve.taken >= 1 && approve.sent[0] == first && bcast == [first]
          && (variant == Internal ==> approve.taken == 1)
        case SawBoth =>
          && |approve.sent| >= 2 && bcast == [approve.sent[0]]
          && 0 in approve.sent && 1 in approve.sent
        case Unblocked =>
          |approve.sent| >= 1 && bcast == [approve.sent[0]] && variant == Internal && decided)
  }

  ghost predicate VoteFact(variant: Variant, q: int, voted: set<Id>, bindVal: seq<int>, ps: seq<Proposal>, v: int) {
    && (v in bindVal ==> |voted| >= q || Forwarded(variant, ps, v))
    && (|voted| >= q ==> bindVal != [])
  }

  ghost predicate VoteFacts(variant: Variant, q: int, votes: PerBit<set<Id>>, bindVal: seq<int>, ps: seq<Proposal>) {
    && votes.zero !! votes.one
    && Bits(bindVal)
    && VoteFact(variant, q, votes.zero, bindVal, ps, 0)
    && VoteFact(variant, q, votes.one, bindVal, ps, 1)
    && (variant == Internal ==> |bindVal| <= 1)
  }

  ghost predicate BinderFacts(bound: bool, bcast: seq<int>, bindVal: Chan<int>, botTaken: nat, sawBoth: bool) {
    if bound
    then |bcast| == 1 && (bcast[0] in bindVal.sent || (bcast[0] == Bot && sawBoth))
    else bcast == [] && botTaken == 0 && bindVal.taken == 0
  }

  ghost predicate BindFact(q: int, bound: set<Id>, termVal: seq<int>, v: int) {
    v in termVal <==> |bound| >= q
  }

  ghost predicate BindFacts(variant: Variant, q: int, binds: PerOutcome<set<Id>>, termVal: seq<int>) {
    && binds.zero !! binds.one && binds.zero !! binds.bot && binds.one !! binds.bot
    && (forall i :: 0 <= i < |termVal| ==> 0 <= termVal[i] <= Bot)
    && Distinct(termVal)
    && BindFact(q, binds.zero, termVal, 0)
    && BindFact(q, binds.one, termVal, 1)
    && BindFact(q, binds.bot, termVal, Bot)
    && (variant == External ==> binds.bot == {})
  }

  // terminateBotChan gets one signal from waitToVote and at most one from submitBind.
  ghost predicate SignalFacts(q: int, total: nat, termVal: seq<int>, termBot: nat, sawBoth: bool) {
    var both := if sawBoth then 1 else 0;
    && (termBot == both || (termBot == both + 1 && total >= q))
    && (total >= q ==> termVal != [] || termBot == both + 1)
  }

  ghost predicate DeciderFacts(decider: Decider, output: seq<int>, termVal: Chan<int>, termBot: Chan<()>, unblock: Chan<()>, unblocked: bool) {
    && unblock.sent == (if decider.Decided? then [()] else [])
    && unblock.taken == (if unblocked then 1 else 0)
    && (match decider
        case AwaitSignal => output == [] && termVal.taken == 0 && termBot.taken == 0
        case AwaitMore => output == [] && termVal.taken == 0 && termBot.taken == 1 <= |termBot.sent|
        case Decided =>
          && |output| == 1
          && (output[0] in termVal.sent || (output[0] == Bot && |termBot.sent| >= 2)))
  }

  ghost predicate EchoInv(variant: Variant, n: nat, f: nat, e: EchoStage, ps: seq<Proposal>) {
    && EchoFacts(variant, f, e.sent, e.from, e.bcast, ps)
    && ApproveFacts(variant, n - f, e.from, e.approve.sent, e.extValid, ps)
  }

  ghost predicate VoteInv(variant: Variant, q: int, approve: Chan<int>, w: VoteStage, ps: seq<Proposal>, decided: bool) {
    && VoterFacts(variant, w.voter, approve, w.bcast, w.bindBot.sent, decided)
    && VoteFacts(variant, q, w.from, w.bindVal.sent, ps)
  }

  ghost predicate BindInv(variant: Variant, q: int, w: VoteStage, b: BindStage) {
    && BinderFacts(b.done, b.bcast, w.bindVal, w.bindBot.taken, w.voter.SawBoth?)
    && BindFacts(variant, q, b.from, b.termVal.sent)
    && SignalFacts(q, Total(b.from), b.termVal.sent, |b.termBot.sent|, w.voter.SawBoth?)
  }

  ghost predicate DecideInv(b: BindStage, d: DecideStage, unblocked: bool) {
    DeciderFacts(d.decider, d.output, b.termVal, b.termBot, d.unblock, unblocked)
  }

  ghost predicate LocalInv(s: State) {
    && s.f < s.n
    && EchoInv(s.variant, s.n, s.f, s.echo, s.proposals)
    && VoteInv(s.variant, s.Quorum(), s.echo.approve, s.vote, s.proposals, s.decide.decider.Decided?)
    && BindInv(s.variant, s.Quorum(), s.vote, s.bind)
    && DecideInv(s.bind, s.decide, s.vote.voter.Unblocked?)
  }

  lemma FreshInv(variant: Variant, n: nat, f: nat)
    requires f < n
    ensures LocalInv(Fresh(variant, n, f))
  {
  }

  // ---- preservation, one handler or goroutine at a time

  lemma EstimatesGrow(ps: seq<Proposal>, x: Proposal)
    ensures HasEstimate(ps + [x], x.est)
    ensures forall v :: HasEstimate(ps + [x], v) <==> HasEstimate(ps, v) || v == x.est
  {
    assert (ps + [x])[|ps|] == x;
    forall v | HasEstimate(ps, v) ensures HasEstimate(ps + [x], v) {
      var i :| 0 <= i < |ps| && ps[i].est == v;
      assert (ps + [x])[i].est == v;
    }
  }

  lemma Appended(q: seq<int>, x: int)
    ensures forall v :: v in q + [x] <==> v in q || v == x
    ensures Bits(q) && IsBit(x) ==> Bits(q + [x])
    ensures Distinct(q) && x !in q ==> Distinct(q + [x])
  {
  }

  // Facts about the reader of a channel survive another send on it.

  lemma VoterApprove(variant: Variant, voter: Voter, approve: Chan<int>, bcast: seq<int>, bindBot: seq<()>, decided: bool, v: int)
    requires VoterFacts(variant, voter, approve, bcast, bindBot, decided)
    ensures VoterFacts(variant, voter, approve.Send(v), bcast, bindBot, decided)
  {
    Appended(approve.sent, v);
  }

  lemma BinderSend(done: bool, bcast: seq<int>, bindVal: Chan<int>, botTaken: nat, sawBoth: bool, v: int)
    requires BinderFacts(done, bcast, bindVal, botTaken, sawBoth)
    ensures BinderFacts(done, bcast, bindVal.Send(v), botTaken, sawBoth)
  {
    Appended(bindVal.sent, v);
  }

  lemma DecideSend(b: BindStage, d: DecideStage, unblocked: bool, v: int)
    requires DecideInv(b, d, unblocked)
    ensures DecideInv(b.(termVal := b.termVal.Send(v)), d, unblocked)
    ensures DecideInv(b.(termBot := b.termBot.Send(())), d, unblocked)
  {
    Appended(b.termVal.sent, v);
  }

  // ---- propose

  lemma ProposalFacts(variant: Variant, n: nat, f: nat, e: EchoStage, ps: seq<Proposal>, x: Proposal)
    requires f < n && EchoInv(variant, n, f, e, ps) && ProposalValid(variant, x.est, x.coin)
    ensures variant == External && x.est == x.coin ==>
              EchoInv(variant, n, f, Approve(e.(sent := e.sent.Put(x.est, true)), x.est), ps + [x])
    ensures variant == External && x.est == Bot ==>
              EchoInv(variant, n, f, Approve(e.(sent := PerBit(true, true)), x.coin), ps + [x])
    ensures IsBit(x.est) ==> EchoInv(variant, n, f, EchoOnce(e, x.est), ps + [x])
  {
    EstimatesGrow(ps, x);
    Appended(e.bcast, x.est);
    Appended(e.approve.sent, x.coin);
    assert x in ps + [x];
  }

  lemma ProposalVotes(variant: Variant, q: int, votes: PerBit<set<Id>>, bindVal: seq<int>, ps: seq<Proposal>, x: Proposal)
    requires VoteFacts(variant, q, votes, bindVal, ps)
    ensures VoteFacts(variant, q, votes, bindVal, ps + [x])
    ensures variant == External && IsBit(x.est) && x.est == x.coin ==> VoteFacts(variant, q, votes, bindVal + [x.est], ps + [x])
  {
    Appended(bindVal, x.est);
    assert x in ps + [x];
  }

  lemma ProposeInv(s: State, est: int, coin: int)
    requires LocalInv(s)
    ensures LocalInv(Propose(s, est, coin))
  {
    if ProposalValid(s.variant, est, coin) {
      var x, w := Proposal(est, coin), s.vote;
      ProposalFacts(s.variant, s.n, s.f, s.echo, s.proposals, x);
      ProposalVotes(s.variant, s.Quorum(), w.from, w.bindVal.sent, s.proposals, x);
      VoterApprove(s.variant, w.voter, s.echo.approve, w.bcast, w.bindBot.sent, s.decide.decider.Decided?, coin);
      BinderSend(s.bind.done, s.bind.bcast, w.bindVal, w.bindBot.taken, w.voter.SawBoth?, coin);
    }
  }

  // ---- handlers

  lemma EchoStep(variant: Variant, f: nat, e: EchoStage, ps: seq<Proposal>, v: int, from: Id)
    requires EchoFacts(variant, f, e.sent, e.from, e.bcast, ps) && EchoAccepted(e, v, from)
    ensures var e1 := e.(from := e.from.Put(v, e.from.At(v) + {from}));
            var e2 := if |e1.from.At(v)| == f + 1 then EchoOnce(e1, v) else e1;
            EchoFacts(variant, f, e2.sent, e2.from, e2.bcast, ps)
  {
    Appended(e.bcast, v);
  }

  lemma ApproveStep(variant: Variant, q: int, from: PerBit<set<Id>>, approved: seq<int>, extValid: seq<int>, ps: seq<Proposal>, v: int, p: Id)
    requires ApproveFacts(variant, q, from, approved, extValid, ps) && IsBit(v) && p !in from.At(v)
    ensures var from' := from.Put(v, from.At(v) + {p});
            if |from'.At(v)| == q
            then ApproveFacts(variant, q, from', approved + [v], if variant == Internal then extValid + [v] else extValid, ps)
            else ApproveFacts(variant, q, from', approved, extValid, ps)
  {
    Appended(approved, v);
  }

  lemma CountEchoInv(variant: Variant, n: nat, f: nat, e: EchoStage, ps: seq<Proposal>, v: int, from: Id)
    requires f < n && EchoInv(variant, n, f, e, ps) && EchoAccepted(e, v, from)
    ensures EchoInv(variant, n, f, CountEcho(variant, n, f, e, v, from), ps)
  {
    EchoStep(variant, f, e, ps, v, from);
    ApproveStep(variant, n - f, e.from, e.approve.sent, e.extValid, ps, v, from);
  }

  lemma SubmitEchoInv(s: State, v: int, from: Id)
    requires LocalInv(s)
    ensures LocalInv(SubmitEcho(s, v, from))
  {
    if EchoAccepted(s.echo, v, from) {
      var w := s.vote;
      CountEchoInv(s.variant, s.n, s.f, s.echo, s.proposals, v, from);
      VoterApprove(s.variant, w.voter, s.echo.approve, w.bcast, w.bindBot.sent, s.decide.decider.Decided?, v);
    }
  }

  lemma CountVoteInv(variant: Variant, q: int, w: VoteStage, ps: seq<Proposal>, v: int, from: Id)
    requires VoteFacts(variant, q, w.from, w.bindVal.sent, ps) && VoteAccepted(w, v, from)
    ensures var w' := CountVote(q, w, v, from); VoteFacts(variant, q, w'.from, w'.bindVal.sent, ps)
  {
    Appended(w.bindVal.sent, v);
    assert w.bindVal.sent != [] ==> w.bindVal.sent[0] in w.bindVal.sent;
  }

  lemma SubmitVoteInv(s: State, v: int, from: Id)
    requires LocalInv(s)
    ensures LocalInv(SubmitVote(s, v, from))
  {
    if VoteAccepted(s.vote, v, from) {
      CountVoteInv(s.variant, s.Quorum(), s.vote, s.proposals, v, from);
      BinderSend(s.bind.done, s.bind.bcast, s.vote.bindVal, s.vote.bindBot.taken, s.vote.voter.SawBoth?, v);
    }
  }

  lemma BindStep(variant: Variant, q: int, binds: PerOutcome<set<Id>>, termVal: seq<int>, v: int, p: Id)
    requires BindFacts(variant, q, binds, termVal)
    requires IsBit(v) || (v == Bot && variant == Internal)
    requires p !in binds.zero && p !in binds.one && p !in binds.bot
    ensures var binds' := binds.Put(v, binds.At(v) + {p});
            && Total(binds') == Total(binds) + 1
            && (if |binds'.At(v)| == q
                then BindFacts(variant, q, binds', termVal + [v])
                else BindFacts(variant, q, binds', termVal))
  {
    Appended(termVal, v);
  }

  // The first time a quorum of binds is reached, some signal is sent.
  lemma SignalStep(q: int, binds: PerOutcome<set<Id>>, termVal: seq<int>, termBot: nat, sawBoth: bool, v: int)
    requires SignalFacts(q, Total(binds), termVal, termBot, sawBoth)
    ensures SignalFacts(q, Total(binds) + 1, termVal + [v], termBot, sawBoth)
    ensures Total(binds) + 1 == q ==> SignalFacts(q, Total(binds) + 1, termVal, termBot + 1, sawBoth)
    ensures Total(binds) + 1 != q ==> SignalFacts(q, Total(binds) + 1, termVal, termBot, sawBoth)
  {
  }

  lemma CountBindInv(variant: Variant, q: int, w: VoteStage, b: BindStage, v: int, from: Id)
    requires BindInv(variant, q, w, b) && BindAccepted(variant, b, v, from)
    ensures BindInv(variant, q, w, CountBind(q, b, v, from))
  {
    BindStep(variant, q, b.from, b.termVal.sent, v, from);
    SignalStep(q, b.from, b.termVal.sent, |b.termBot.sent|, w.voter.SawBoth?, v);
  }

  lemma SubmitBindInv(s: State, v: int, from: Id)
    requires LocalInv(s)
    ensures LocalInv(SubmitBind(s, v, from))
  {
    if BindAccepted(s.variant, s.bind, v, from) {
      CountBindInv(s.variant, s.Quorum(), s.vote, s.bind, v, from);
      DecideSend(s.bind, s.decide, s.vote.voter.Unblocked?, v);
    }
  }

  // ---- goroutines

  lemma VoteFirstInv(s: State)
    requires LocalInv(s) && Enabled(s, VoteFirst)
    ensures LocalInv(Work(s, VoteFirst))
  {
  }

  lemma BothApproved(approved: seq<int>, i: nat)
    requires Bits(approved) && 0 < i < |approved| && approved[i] != approved[0]
    ensures 0 in approved && 1 in approved
  {
    assert approved[i] in approved && approved[0] in approved;
  }

  lemma SecondSignal(variant: Variant, q: int, w: VoteStage, b: BindStage)
    requires BindInv(variant, q, w, b) && !w.voter.SawBoth?
    ensures BindInv(variant, q, w.(voter := SawBoth, bindBot := w.bindBot.Send(())), b.(termBot := b.termBot.Send(())))
  {
  }

  lemma VoteSecondInv(s: State)
    requires LocalInv(s) && Enabled(s, VoteSecond)
    ensures LocalInv(Work(s, VoteSecond))
  {
    if s.variant == Internal || s.echo.approve.Head() != s.vote.voter.first {
      BothApproved(s.echo.approve.sent, s.echo.approve.taken);
      DecideSend(s.bind, s.decide, false, Bot);
      SecondSignal(s.variant, s.Quorum(), s.vote, s.bind);
    }
  }

  lemma VoteUnblockInv(s: State)
    requires LocalInv(s) && Enabled(s, VoteUnblock)
    ensures LocalInv(Work(s, VoteUnblock))
  {
  }

  lemma BindJobInv(s: State, j: Job)
    requires LocalInv(s) && Enabled(s, j) && (j.BindBot? || j.BindVal?)
    ensures LocalInv(Work(s, j))
  {
  }

  lemma DecideJobInv(s: State, j: Job)
    requires LocalInv(s) && Enabled(s, j) && (j.DecideBot? || j.DecideVal?)
    ensures LocalInv(Work(s, j))
  {
  }

  lemma ApplyInv(s: State, a: Action)
    requires LocalInv(s) && Can(s, a)
    ensures LocalInv(Apply(s, a))
  {
    match a
    case Start(est, coin) => ProposeInv(s, est, coin);
    case Receive(from, EchoMsg(v)) => SubmitEchoInv(s, v, from);
    case Receive(from, VoteMsg(v)) => SubmitVoteInv(s, v, from);
    case Receive(from, BindMsg(v)) => SubmitBindInv(s, v, from);
    case Run(VoteFirst) => VoteFirstInv(s);
    case Run(VoteSecond) => VoteSecondInv(s);
    case Run(VoteUnblock) => VoteUnblockInv(s);
    case Run(BindBot) => BindJobInv(s, BindBot);
    case Run(BindVal) => BindJobInv(s, BindVal);
    case Run(DecideVal) => DecideJobInv(s, DecideVal);
    case Run(DecideBot) => DecideJobInv(s, DecideBot);
  }
}
