/** What a crusader node is after any sequence of actions, said of the sequence itself: whom it has counted
    for what, what it has proposed, and what each goroutine has taken and put out. */
module CrusaderHistory {
  import opened Quorums
  import opened CrusaderNode
  import opened CrusaderInvariants
  import opened CrusaderStretches
  import opened CrusaderBlocking
  import CrusaderRuns

  type Acts = seq<Action>

  // ---- the sequence

  // The proposals that are not refused.
  function Made(variant: Variant, acts: Acts): seq<Proposal> {
    if acts == [] then []
    else
      var last := acts[|acts| - 1];
      Made(variant, acts[..|acts| - 1]) +
      if last.Start? && (if variant == Internal then (last.est == 0 || last.est == 1) && last.coin == 2
                         else 0 <= last.est <= 2 && (last.coin == 0 || last.coin == 1))
      then [Proposal(last.est, last.coin)] else []
  }

  const Nothing := -1

  // The value of the first vote of q for a bit.
  function FirstVote(acts: Acts, q: Id): int {
    if acts == [] then Nothing
    else
      var last, before := acts[|acts| - 1], FirstVote(acts[..|acts| - 1], q);
      if before != Nothing then before
      else if last.Receive? && last.from == q && last.msg.VoteMsg? && 0 <= last.msg.v <= 1 then last.msg.v
      else Nothing
  }

  // The value of the first bind of q that is a bit, or in the first round bot.
  function FirstBind(variant: Variant, acts: Acts, q: Id): int {
    if acts == [] then Nothing
    else
      var last, before := acts[|acts| - 1], FirstBind(variant, acts[..|acts| - 1], q);
      if before != Nothing then before
      else if last.Receive? && last.from == q && last.msg.BindMsg? && 0 <= last.msg.v <= (if variant == Internal then 2 else 1)
      then last.msg.v
      else Nothing
  }

  // The first binds of all senders, in the order they came.
  function BindOrder(variant: Variant, acts: Acts): seq<int> {
    if acts == [] then []
    else
      var front, last := acts[..|acts| - 1], acts[|acts| - 1];
      BindOrder(variant, front) +
      if last.Receive? && FirstBind(variant, front, last.from) == Nothing && FirstBind(variant, acts, last.from) != Nothing
      then [FirstBind(variant, acts, last.from)] else []
  }

  function Times(acts: Acts, job: Job): nat {
    if acts == [] then 0
    else Times(acts[..|acts| - 1], job) + if acts[|acts| - 1] == Run(job) then 1 else 0
  }

  // ---- what the node is

  ghost predicate EchoesCounted(from: PerBit<set<Id>>, acts: Acts) {
    forall q :: (q in from.zero <==> Receive(q, EchoMsg(0)) in acts) && (q in from.one <==> Receive(q, EchoMsg(1)) in acts)
  }

  ghost predicate VotesCounted(from: PerBit<set<Id>>, acts: Acts) {
    forall q :: (q in from.zero <==> FirstVote(acts, q) == 0) && (q in from.one <==> FirstVote(acts, q) == 1)
  }

  ghost predicate BindsCounted(variant: Variant, from: PerOutcome<set<Id>>, acts: Acts) {
    forall q ::
      && (q in from.zero <==> FirstBind(variant, acts, q) == 0)
      && (q in from.one <==> FirstBind(variant, acts, q) == 1)
      && (q in from.bot <==> FirstBind(variant, acts, q) == 2)
  }

  // waitToVote: it votes for the first approval, and is through with the second (in later rounds, with the
  // first of the other value), or unblocked.
  ghost predicate VoterDid(variant: Variant, voter: Voter, approve: Chan<int>, bcast: seq<int>, unblockTaken: nat, acts: Acts) {
    && approve.taken == Times(acts, VoteFirst) + Times(acts, VoteSecond) <= |approve.sent|
    && bcast == (if Times(acts, VoteFirst) > 0 then approve.sent[..1] else [])
    && unblockTaken == Times(acts, VoteUnblock) <= 1
    && (voter.Unblocked? <==> Times(acts, VoteUnblock) == 1)
    && (voter.AwaitFirst? <==> Times(acts, VoteFirst) == 0)
    && (voter.SawBoth? <==> if variant == Internal then Times(acts, VoteSecond) > 0 else Differ(approve.sent[..approve.taken]))
  }

  ghost predicate Differ(q: seq<int>) {
    exists i :: 0 <= i < |q| && q[i] != q[0]
  }

  // waitToBind and waitToDecide.
  ghost predicate BinderDid(bindBot: Chan<()>, bindVal: Chan<int>, b: BindStage, acts: Acts) {
    && bindBot.taken == Times(acts, BindBot) && bindVal.taken == Times(acts, BindVal) <= |bindVal.sent|
    && bindBot.taken + bindVal.taken <= 1
    && b.bcast == (if Times(acts, BindBot) > 0 then [2] else if Times(acts, BindVal) > 0 then bindVal.sent[..1] else [])
    && b.done == (b.bcast != [])
  }

  ghost predicate DeciderDid(termVal: Chan<int>, termBot: Chan<()>, d: DecideStage, acts: Acts) {
    && termVal.taken == Times(acts, DecideVal) <= |termVal.sent| && termVal.taken <= 1
    && termBot.taken == Times(acts, DecideBot) <= 2
    && d.output == (if Times(acts, DecideVal) > 0 then termVal.sent[..1] else if Times(acts, DecideBot) > 1 then [2] else [])
    && (d.decider.Decided? <==> d.output != [])
    && d.unblock.sent == (if d.output != [] then [()] else [])
  }

  // The bot signals: one from waitToVote, and one for the bind that makes n - f of different values.
  ghost predicate Signalled(q: int, order: seq<int>, sawBoth: bool, signals: nat) {
    signals == (if sawBoth then 1 else 0) + (if Mixed(q, order) then 1 else 0)
  }

  ghost predicate Mixed(q: int, order: seq<int>) {
    |order| >= q && q > 0 && Differ(order[..q])
  }

  ghost predicate Ordered(binds: PerOutcome<set<Id>>, order: seq<int>) {
    && |binds.zero| == Occurs(order, 0) && |binds.one| == Occurs(order, 1) && |binds.bot| == Occurs(order, 2)
    && |order| == |binds.zero| + |binds.one| + |binds.bot|
  }

  function Occurs(order: seq<int>, v: int): nat {
    if order == [] then 0 else Occurs(order[..|order| - 1], v) + if order[|order| - 1] == v then 1 else 0
  }

  // What was echoed and approved, of the proposals and the echoes counted.
  ghost predicate EchoSent(variant: Variant, f: nat, sent: bool, echoed: set<Id>, bcast: seq<int>, ps: seq<Proposal>, v: int) {
    && (|echoed| > f ==> sent) && (Proposal(v, if variant == Internal then 2 else 1 - v) in ps ==> sent)
    && (variant == External && (Proposal(v, v) in ps || Proposal(2, 0) in ps || Proposal(2, 1) in ps) ==> sent)
    && (sent ==> v in bcast || (variant == External && (Proposal(v, v) in ps || Proposal(2, 0) in ps || Proposal(2, 1) in ps)))
  }

  // One approval for an echo quorum, and in later rounds one for each fast forward and each vote on the coin.
  ghost predicate ApprovalsSent(variant: Variant, q: int, echoed: set<Id>, approved: seq<int>, ps: seq<Proposal>, v: int) {
    Occurs(approved, v) == (if |echoed| >= q then 1 else 0) + (if variant == External then Shortcuts(ps, v) else 0)
  }

  function Shortcuts(ps: seq<Proposal>, v: int): nat {
    if ps == [] then 0
    else
      var last := ps[|ps| - 1];
      Shortcuts(ps[..|ps| - 1], v) + if last.coin == v && (last.est == v || last.est == 2) then 1 else 0
  }

  ghost predicate EchoDid(variant: Variant, n: nat, f: nat, e: EchoStage, ps: seq<Proposal>, acts: Acts) {
    && EchoesCounted(e.from, acts)
    && EchoSent(variant, f, e.sent.zero, e.from.zero, e.bcast, ps, 0)
    && EchoSent(variant, f, e.sent.one, e.from.one, e.bcast, ps, 1)
    && ApprovalsSent(variant, n - f, e.from.zero, e.approve.sent, ps, 0)
    && ApprovalsSent(variant, n - f, e.from.one, e.approve.sent, ps, 1)
    && Bits(e.approve.sent)
  }

  // Values reported valid: the approvals of the first round; later, the vote and then the other value.
  ghost predicate Reported(variant: Variant, extValid: seq<int>, approved: seq<int>, bcast: seq<int>, sawBoth: bool) {
    extValid == if variant == Internal then approved
                else bcast + if sawBoth && bcast != [] then [1 - bcast[0]] else []
  }

  ghost predicate VoteDid(s: State, acts: Acts) {
    VoterIs(s.variant, s.Quorum(), s.proposals, s.echo.approve, s.echo.extValid, s.vote, s.decide.unblock.taken, acts)
  }

  ghost predicate VoterIs(variant: Variant, q: int, ps: seq<Proposal>, approve: Chan<int>, extValid: seq<int>,
                          w: VoteStage, unblockTaken: nat, acts: Acts)
  {
    && VotesCounted(w.from, acts)
    && VoterDid(variant, w.voter, approve, w.bcast, unblockTaken, acts)
    && Reported(variant, extValid, approve.sent, w.bcast, w.voter.SawBoth?)
    && w.bindBot.sent == (if w.voter.SawBoth? then [()] else [])
    && BindSends(variant, q, ps, w)
    && ForwardsSent(variant, ps, w.bindVal.sent)
  }

  ghost predicate ForwardsSent(variant: Variant, ps: seq<Proposal>, bindVal: seq<int>) {
    variant == External ==> forall v :: Proposal(v, v) in ps ==> v in bindVal
  }

  ghost predicate BindDid(s: State, acts: Acts) {
    BinderIs(s.variant, s.Quorum(), s.vote.voter.SawBoth?, s.vote.bindBot, s.vote.bindVal, s.bind, s.decide, acts)
  }

  ghost predicate BinderIs(variant: Variant, q: int, sawBoth: bool, bindBot: Chan<()>, bindVal: Chan<int>,
                           b: BindStage, d: DecideStage, acts: Acts)
  {
    var order := BindOrder(variant, acts);
    && BindsCounted(variant, b.from, acts) && Ordered(b.from, order)
    && Signalled(q, order, sawBoth, |b.termBot.sent|)
    && BinderDid(bindBot, bindVal, b, acts)
    && DeciderDid(b.termVal, b.termBot, d, acts)
  }

  ghost predicate Did(s: State, acts: Acts) {
    s.proposals == Made(s.variant, acts) && EchoDid(s.variant, s.n, s.f, s.echo, s.proposals, acts) && VoteDid(s, acts) && BindDid(s, acts)
  }

  // ---- one more action

  lemma Front(acts: Acts, a: Action)
    ensures (acts + [a])[..|acts|] == acts && (acts + [a])[|acts|] == a
    ensures forall x :: x in acts + [a] <==> x in acts || x == a
  {
  }

  lemma OccursBack(q: seq<int>, x: int, v: int)
    ensures Occurs(q + [x], v) == Occurs(q, v) + if x == v then 1 else 0
  {
    assert (q + [x])[..|q|] == q;
  }

  lemma ShortcutsBack(ps: seq<Proposal>, p: Proposal, v: int)
    ensures Shortcuts(ps + [p], v) == Shortcuts(ps, v) + if p.coin == v && (p.est == v || p.est == 2) then 1 else 0
  {
    assert (ps + [p])[..|ps|] == ps;
  }

  // A message of another kind, or a step that is no message, changes no first vote and no first bind.
  lemma FirstsKept(variant: Variant, acts: Acts, a: Action)
    ensures !(a.Receive? && a.msg.VoteMsg?) ==> forall q :: FirstVote(acts + [a], q) == FirstVote(acts, q)
    ensures !(a.Receive? && a.msg.BindMsg?) ==> forall q :: FirstBind(variant, acts + [a], q) == FirstBind(variant, acts, q)
    ensures !(a.Receive? && a.msg.BindMsg?) ==> BindOrder(variant, acts + [a]) == BindOrder(variant, acts)
  {
    Front(acts, a);
  }

  lemma TimesBack(acts: Acts, a: Action)
    ensures forall j :: Times(acts + [a], j) == Times(acts, j) + if a == Run(j) then 1 else 0
  {
    Front(acts, a);
  }

  lemma MadeBack(variant: Variant, acts: Acts, a: Action)
    ensures !a.Start? ==> Made(variant, acts + [a]) == Made(variant, acts)
    ensures a.Start? ==> Made(variant, acts + [a]) == Made(variant, acts) + if ProposalValid(variant, a.est, a.coin) then [Proposal(a.est, a.coin)] else []
  {
    Front(acts, a);
  }

  // ---- propose

  lemma EchoSentStart(variant: Variant, f: nat, e: EchoStage, e': EchoStage, ps: seq<Proposal>, x: Proposal, v: int)
    requires IsBit(v) && ProposalValid(variant, x.est, x.coin) && e'.from == e.from
    requires EchoSent(variant, f, e.sent.At(v), e.from.At(v), e.bcast, ps, v)
    requires e' == if variant == External && x.est == x.coin then Approve(e.(sent := e.sent.Put(x.est, true)), x.est)
                   else if variant == External && x.est == 2 then Approve(e.(sent := PerBit(true, true)), x.coin)
                   else EchoOnce(e, x.est)
    ensures EchoSent(variant, f, e'.sent.At(v), e'.from.At(v), e'.bcast, ps + [x], v)
  {
    Appended(e.bcast, x.est);
    assert forall y :: y in ps + [x] <==> y in ps || y == x;
  }

  lemma ApprovalsStart(variant: Variant, q: int, echoed: set<Id>, approved: seq<int>, ps: seq<Proposal>, x: Proposal, v: int)
    requires ApprovalsSent(variant, q, echoed, approved, ps, v) && ProposalValid(variant, x.est, x.coin) && IsBit(v)
    ensures variant == Internal || (x.est != x.coin && x.est != 2) ==> ApprovalsSent(variant, q, echoed, approved, ps + [x], v)
    ensures variant == External && (x.est == x.coin || x.est == 2) ==> ApprovalsSent(variant, q, echoed, approved + [x.coin], ps + [x], v)
  {
    OccursBack(approved, x.coin, v);
    ShortcutsBack(ps, x, v);
  }

  lemma EchoDidStart(variant: Variant, n: nat, f: nat, e: EchoStage, e': EchoStage, ps: seq<Proposal>, x: Proposal, acts: Acts)
    requires EchoDid(variant, n, f, e, ps, acts) && ProposalValid(variant, x.est, x.coin)
    requires e' == if variant == External && x.est == x.coin then Approve(e.(sent := e.sent.Put(x.est, true)), x.est)
                   else if variant == External && x.est == 2 then Approve(e.(sent := PerBit(true, true)), x.coin)
                   else EchoOnce(e, x.est)
    ensures EchoDid(variant, n, f, e', ps + [x], acts + [Start(x.est, x.coin)])
  {
    Front(acts, Start(x.est, x.coin));
    forall v | v == 0 || v == 1
      ensures EchoSent(variant, f, e'.sent.At(v), e'.from.At(v), e'.bcast, ps + [x], v)
      ensures ApprovalsSent(variant, n - f, e'.from.At(v), e'.approve.sent, ps + [x], v)
    {
      EchoSentStart(variant, f, e, e', ps, x, v);
      ApprovalsStart(variant, n - f, e.from.At(v), e.approve.sent, ps, x, v);
    }
    assert EchoSent(variant, f, e'.sent.At(0), e'.from.At(0), e'.bcast, ps + [x], 0);
    assert EchoSent(variant, f, e'.sent.At(1), e'.from.At(1), e'.bcast, ps + [x], 1);
    assert ApprovalsSent(variant, n - f, e'.from.At(0), e'.approve.sent, ps + [x], 0);
    assert ApprovalsSent(variant, n - f, e'.from.At(1), e'.approve.sent, ps + [x], 1);
    Appended(e.approve.sent, x.coin);
  }

  // An approval more, not yet taken, changes nothing the voter did.
  lemma VoterApproved(variant: Variant, voter: Voter, approve: Chan<int>, bcast: seq<int>, taken: nat, acts: Acts, v: int)
    requires VoterDid(variant, voter, approve, bcast, taken, acts)
    ensures VoterDid(variant, voter, approve.Send(v), bcast, taken, acts)
  {
    var a, a' := approve.sent, (approve.sent + [v]);
    assert a'[..approve.taken] == a[..approve.taken];
    assert Times(acts, VoteFirst) > 0 ==> a'[..1] == a[..1];
  }

  lemma BinderSent(bindBot: Chan<()>, bindVal: Chan<int>, b: BindStage, acts: Acts, v: int)
    requires BinderDid(bindBot, bindVal, b, acts)
    ensures BinderDid(bindBot, bindVal.Send(v), b, acts) && BinderDid(bindBot.Send(()), bindVal, b, acts)
  {
    assert Times(acts, BindVal) > 0 ==> (bindVal.sent + [v])[..1] == bindVal.sent[..1];
  }

  lemma DeciderSent(termVal: Chan<int>, termBot: Chan<()>, d: DecideStage, acts: Acts, v: int)
    requires DeciderDid(termVal, termBot, d, acts)
    ensures DeciderDid(termVal.Send(v), termBot, d, acts) && DeciderDid(termVal, termBot.Send(()), d, acts)
  {
    assert Times(acts, DecideVal) > 0 ==> (termVal.sent + [v])[..1] == termVal.sent[..1];
  }

  // The binders' records name only the messages and the goroutines' steps.
  lemma VoteRecord(s: State, t: State, acts: Acts, a: Action)
    requires VoteDid(s, acts) && !a.Run? && !(a.Receive? && a.msg.VoteMsg?)
    requires t.variant == s.variant && t.vote == s.vote && t.n == s.n && t.f == s.f && t.decide == s.decide
    requires t.proposals == s.proposals && t.echo.extValid == s.echo.extValid && t.echo.approve == s.echo.approve
    ensures VoteDid(t, acts + [a])
  {
    FirstsKept(s.variant, acts, a);
    TimesBack(acts, a);
  }

  lemma BindRecord(s: State, t: State, acts: Acts, a: Action)
    requires BindDid(s, acts) && !a.Run? && !(a.Receive? && a.msg.BindMsg?)
    requires t.variant == s.variant && t.n == s.n && t.f == s.f && t.bind == s.bind && t.decide == s.decide
    requires t.vote.voter.SawBoth? == s.vote.voter.SawBoth? && t.vote.bindBot == s.vote.bindBot
    requires t.vote.bindVal == s.vote.bindVal || exists v :: t.vote.bindVal == s.vote.bindVal.Send(v)
    ensures BindDid(t, acts + [a])
  {
    FirstsKept(s.variant, acts, a);
    TimesBack(acts, a);
    if t.vote.bindVal != s.vote.bindVal {
      var v :| t.vote.bindVal == s.vote.bindVal.Send(v);
      BinderSent(s.vote.bindBot, s.vote.bindVal, s.bind, acts, v);
    }
  }

  lemma EchoRecord(variant: Variant, n: nat, f: nat, e: EchoStage, ps: seq<Proposal>, acts: Acts, a: Action)
    requires EchoDid(variant, n, f, e, ps, acts) && !(a.Receive? && a.msg.EchoMsg?)
    ensures EchoDid(variant, n, f, e, ps, acts + [a])
  {
    Front(acts, a);
  }

  // What a proposal does outside the echo stage, and to the approvals.
  lemma ProposeShape(s: State, est: int, coin: int)
    requires ProposalValid(s.variant, est, coin)
    ensures StartShape(s, Propose(s, est, coin), est, coin)
  {
  }

  ghost predicate StartShape(s: State, t: State, est: int, coin: int) {
    && t.variant == s.variant && t.n == s.n && t.f == s.f && t.decide == s.decide
    && t.proposals == s.proposals + [Proposal(est, coin)] && t.echo.extValid == s.echo.extValid
    && (t.echo.approve == s.echo.approve || (s.variant == External && t.echo.approve == s.echo.approve.Send(coin)))
    && t.vote == if s.variant == External && est == coin then s.vote.(bindVal := s.vote.bindVal.Send(est)) else s.vote
  }

  lemma StartedVotes(s: State, t: State, acts: Acts, est: int, coin: int)
    requires VoteDid(s, acts) && StartShape(s, t, est, coin)
    ensures VoteDid(t, acts + [Start(est, coin)])
  {
    StartedVoter(s.variant, s.Quorum(), s.proposals, s.echo.approve, s.echo.extValid, s.vote, s.decide.unblock.taken, acts,
                 t.vote, Start(est, coin), Proposal(est, coin));
    VoteDidAgain(s, t, acts + [Start(est, coin)]);
  }

  lemma VoteDidAgain(s: State, t: State, acts: Acts)
    requires VoterIs(s.variant, s.Quorum(), t.proposals, t.echo.approve, t.echo.extValid, t.vote, t.decide.unblock.taken, acts)
    requires t.variant == s.variant && t.n == s.n && t.f == s.f
    ensures VoteDid(t, acts)
  {
  }

  lemma StartedVoter(variant: Variant, q: int, ps: seq<Proposal>, approve: Chan<int>, extValid: seq<int>, w: VoteStage, u: nat,
                     acts: Acts, w': VoteStage, a: Action, x: Proposal)
    requires VoterIs(variant, q, ps, approve, extValid, w, u, acts) && a.Start?
    requires w' == if variant == External && x.est == x.coin then w.(bindVal := w.bindVal.Send(x.est)) else w
    ensures VoterIs(variant, q, ps + [x], approve, extValid, w', u, acts + [a])
    ensures variant == External ==> VoterIs(variant, q, ps + [x], approve.Send(x.coin), extValid, w', u, acts + [a])
  {
    FirstsKept(variant, acts, a);
    TrafficStarted(variant, q, ps, w, w', x);
    VoterApproved(variant, w.voter, approve, w.bcast, u, acts, x.coin);
    NoVoterJob(variant, w.voter, approve, w.bcast, u, acts, a);
    NoVoterJob(variant, w.voter, approve.Send(x.coin), w.bcast, u, acts, a);
  }

  lemma NoVoterJob(variant: Variant, voter: Voter, approve: Chan<int>, w: seq<int>, u: nat, acts: Acts, a: Action)
    requires !a.Run? && VoterDid(variant, voter, approve, w, u, acts)
    ensures VoterDid(variant, voter, approve, w, u, acts + [a])
  {
    TimesBack(acts, a);
  }

  lemma TrafficStarted(variant: Variant, q: int, ps: seq<Proposal>, w: VoteStage, w': VoteStage, x: Proposal)
    requires BindSends(variant, q, ps, w) && ForwardsSent(variant, ps, w.bindVal.sent)
    requires w' == if variant == External && x.est == x.coin then w.(bindVal := w.bindVal.Send(x.est)) else w
    ensures BindSends(variant, q, ps + [x], w') && ForwardsSent(variant, ps + [x], w'.bindVal.sent)
  {
    ForwardsBack(ps, x);
    Appended(w.bindVal.sent, x.est);
    assert forall y :: y in ps + [x] <==> y in ps || y == x;
  }

  lemma StartDid(s: State, acts: Acts, est: int, coin: int)
    requires Did(s, acts)
    ensures Did(Propose(s, est, coin), acts + [Start(est, coin)])
  {
    var a, t := Start(est, coin), Propose(s, est, coin);
    MadeBack(s.variant, acts, a);
    if ProposalValid(s.variant, est, coin) {
      EchoDidStart(s.variant, s.n, s.f, s.echo, t.echo, s.proposals, Proposal(est, coin), acts);
      ProposeShape(s, est, coin);
      StartedVotes(s, t, acts, est, coin);
      BindRecord(s, t, acts, a);
    } else {
      EchoRecord(s.variant, s.n, s.f, s.echo, s.proposals, acts, a);
      VoteRecord(s, s, acts, a);
      BindRecord(s, s, acts, a);
    }
  }

  // ---- messages

  lemma EchoHeard(variant: Variant, n: nat, f: nat, e: EchoStage, ps: seq<Proposal>, acts: Acts, v: int, from: Id)
    requires EchoDid(variant, n, f, e, ps, acts) && EchoAccepted(e, v, from)
    ensures EchoDid(variant, n, f, CountEcho(variant, n, f, e, v, from), ps, acts + [Receive(from, EchoMsg(v))])
  {
    var e' := CountEcho(variant, n, f, e, v, from);
    EchoNoted(variant, n, f, e, acts, v, from);
    CountShape(variant, n, f, e, v, from);
    EchoEffects(variant, n, f, e, e', ps, v, from, 0);
    EchoEffects(variant, n, f, e, e', ps, v, from, 1);
  }

  // What an echo counted changes: the counts, perhaps an echo, perhaps an approval.
  ghost predicate EchoShape(n: nat, f: nat, e: EchoStage, e': EchoStage, v: int, from: Id)
    requires IsBit(v)
  {
    var now := e.from.Put(v, e.from.At(v) + {from});
    var once := if |now.At(v)| == f + 1 then EchoOnce(e, v) else e;
    && e'.from == now && e'.sent == once.sent && e'.bcast == once.bcast
    && e'.approve.sent == if |now.At(v)| == n - f then e.approve.sent + [v] else e.approve.sent
  }

  lemma CountShape(variant: Variant, n: nat, f: nat, e: EchoStage, v: int, from: Id)
    requires IsBit(v)
    ensures EchoShape(n, f, e, CountEcho(variant, n, f, e, v, from), v, from)
  {
  }

  lemma EchoNoted(variant: Variant, n: nat, f: nat, e: EchoStage, acts: Acts, v: int, from: Id)
    requires EchoesCounted(e.from, acts) && EchoAccepted(e, v, from) && Bits(e.approve.sent)
    ensures var e' := CountEcho(variant, n, f, e, v, from);
            EchoesCounted(e'.from, acts + [Receive(from, EchoMsg(v))]) && Bits(e'.approve.sent)
  {
    Front(acts, Receive(from, EchoMsg(v)));
    Appended(e.approve.sent, v);
  }

  lemma EchoEffects(variant: Variant, n: nat, f: nat, e: EchoStage, e': EchoStage, ps: seq<Proposal>, v: int, from: Id, w: int)
    requires EchoAccepted(e, v, from) && IsBit(w) && EchoShape(n, f, e, e', v, from)
    requires EchoSent(variant, f, e.sent.At(w), e.from.At(w), e.bcast, ps, w)
    requires ApprovalsSent(variant, n - f, e.from.At(w), e.approve.sent, ps, w)
    ensures EchoSent(variant, f, e'.sent.At(w), e'.from.At(w), e'.bcast, ps, w)
    ensures ApprovalsSent(variant, n - f, e'.from.At(w), e'.approve.sent, ps, w)
  {
    EchoOut(variant, f, e, ps, v, from, w);
    ApprovalOut(variant, n - f, e, ps, v, from, w);
  }

  lemma ApprovalOut(variant: Variant, q: int, e: EchoStage, ps: seq<Proposal>, v: int, from: Id, w: int)
    requires EchoAccepted(e, v, from) && IsBit(w)
    requires ApprovalsSent(variant, q, e.from.At(w), e.approve.sent, ps, w)
    ensures var from' := e.from.Put(v, e.from.At(v) + {from});
            ApprovalsSent(variant, q, from'.At(w), if |from'.At(v)| == q then e.approve.sent + [v] else e.approve.sent, ps, w)
  {
    assert |e.from.At(v) + {from}| == |e.from.At(v)| + 1;
    OccursBack(e.approve.sent, v, w);
  }

  lemma EchoOut(variant: Variant, f: nat, e: EchoStage, ps: seq<Proposal>, v: int, from: Id, w: int)
    requires EchoAccepted(e, v, from) && IsBit(w)
    requires EchoSent(variant, f, e.sent.At(w), e.from.At(w), e.bcast, ps, w)
    ensures var from' := e.from.Put(v, e.from.At(v) + {from});
            var e' := if |from'.At(v)| == f + 1 then EchoOnce(e, v) else e;
            EchoSent(variant, f, e'.sent.At(w), from'.At(w), e'.bcast, ps, w)
  {
    assert |e.from.At(v) + {from}| == |e.from.At(v)| + 1;
    Appended(e.bcast, v);
  }

  lemma EchoVotes(s: State, acts: Acts, v: int, from: Id)
    requires VoteDid(s, acts)
    ensures VoteDid(SubmitEcho(s, v, from), acts + [Receive(from, EchoMsg(v))])
  {
    var t := SubmitEcho(s, v, from);
    EchoVoter(s.variant, s.Quorum(), s.proposals, s.echo.approve, s.echo.extValid, s.vote, s.decide.unblock.taken, acts, v, from);
    VoteDidAgain(s, t, acts + [Receive(from, EchoMsg(v))]);
  }

  lemma EchoVoter(variant: Variant, q: int, ps: seq<Proposal>, approve: Chan<int>, extValid: seq<int>, w: VoteStage, u: nat,
                  acts: Acts, v: int, from: Id)
    requires VoterIs(variant, q, ps, approve, extValid, w, u, acts)
    ensures var acts' := acts + [Receive(from, EchoMsg(v))];
            && VoterIs(variant, q, ps, approve, extValid, w, u, acts')
            && VoterIs(variant, q, ps, approve.Send(v), if variant == Internal then extValid + [v] else extValid, w, u, acts')
  {
    var a := Receive(from, EchoMsg(v));
    FirstsKept(variant, acts, a);
    VoterApproved(variant, w.voter, approve, w.bcast, u, acts, v);
    NoVoterJob(variant, w.voter, approve, w.bcast, u, acts, a);
    NoVoterJob(variant, w.voter, approve.Send(v), w.bcast, u, acts, a);
  }

  lemma EchoMsgDid(s: State, acts: Acts, v: int, from: Id)
    requires Did(s, acts)
    ensures Did(SubmitEcho(s, v, from), acts + [Receive(from, EchoMsg(v))])
  {
    var a, t := Receive(from, EchoMsg(v)), SubmitEcho(s, v, from);
    MadeBack(s.variant, acts, a);
    EchoVotes(s, acts, v, from);
    BindRecord(s, t, acts, a);
    if EchoAccepted(s.echo, v, from) {
      EchoHeard(s.variant, s.n, s.f, s.echo, s.proposals, acts, v, from);
    } else {
      Front(acts, a);
    }
  }

  lemma FirstVoteBack(acts: Acts, v: int, from: Id)
    ensures forall q :: FirstVote(acts + [Receive(from, VoteMsg(v))], q) ==
                        if q == from && FirstVote(acts, q) == Nothing && IsBit(v) then v else FirstVote(acts, q)
  {
    Front(acts, Receive(from, VoteMsg(v)));
  }

  lemma {:induction false} FirstVoteRange(acts: Acts, q: Id)
    ensures FirstVote(acts, q) == Nothing || IsBit(FirstVote(acts, q))
  {
    if acts != [] {
      FirstVoteRange(acts[..|acts| - 1], q);
    }
  }

  lemma VotesHeard(from: PerBit<set<Id>>, acts: Acts, v: int, p: Id)
    requires VotesCounted(from, acts)
    ensures var a := Receive(p, VoteMsg(v));
            VotesCounted(if IsBit(v) && p !in from.zero && p !in from.one then from.Put(v, from.At(v) + {p}) else from, acts + [a])
  {
    FirstVoteBack(acts, v, p);
    FirstVoteRange(acts, p);
  }

  lemma VoteVotes(s: State, acts: Acts, v: int, from: Id)
    requires VoteDid(s, acts)
    ensures VoteDid(SubmitVote(s, v, from), acts + [Receive(from, VoteMsg(v))])
  {
    var a, t := Receive(from, VoteMsg(v)), SubmitVote(s, v, from);
    VotesHeard(s.vote.from, acts, v, from);
    NoVoterJob(s.variant, s.vote.voter, s.echo.approve, s.vote.bcast, s.decide.unblock.taken, acts, a);
    if VoteAccepted(s.vote, v, from) {
      VoteSends(s.variant, s.Quorum(), s.proposals, s.vote, v, from);
      Appended(s.vote.bindVal.sent, v);
    }
  }

  lemma VoteMsgDid(s: State, acts: Acts, v: int, from: Id)
    requires Did(s, acts)
    ensures Did(SubmitVote(s, v, from), acts + [Receive(from, VoteMsg(v))])
  {
    var a, t := Receive(from, VoteMsg(v)), SubmitVote(s, v, from);
    MadeBack(s.variant, acts, a);
    EchoRecord(s.variant, s.n, s.f, s.echo, s.proposals, acts, a);
    VoteVotes(s, acts, v, from);
    BindRecord(s, t, acts, a);
  }

  lemma FirstBindBack(variant: Variant, acts: Acts, v: int, from: Id)
    ensures var a := Receive(from, BindMsg(v));
            var counts := FirstBind(variant, acts, from) == Nothing && (IsBit(v) || (v == Bot && variant == Internal));
            && (forall q :: FirstBind(variant, acts + [a], q) == if q == from && counts then v else FirstBind(variant, acts, q))
            && BindOrder(variant, acts + [a]) == BindOrder(variant, acts) + if counts then [v] else []
  {
    Front(acts, Receive(from, BindMsg(v)));
  }

  lemma {:induction false} FirstBindRange(variant: Variant, acts: Acts, q: Id)
    ensures FirstBind(variant, acts, q) == Nothing || 0 <= FirstBind(variant, acts, q) <= Bot
  {
    if acts != [] {
      FirstBindRange(variant, acts[..|acts| - 1], q);
    }
  }

  lemma BindsHeard(variant: Variant, from: PerOutcome<set<Id>>, acts: Acts, v: int, p: Id)
    requires BindsCounted(variant, from, acts)
    ensures var a := Receive(p, BindMsg(v));
            var counts := FirstBind(variant, acts, p) == Nothing && (IsBit(v) || (v == Bot && variant == Internal));
            && (counts <==> (IsBit(v) || (v == Bot && variant == Internal)) && p !in from.zero && p !in from.one && p !in from.bot)
            && BindsCounted(variant, if counts then from.Put(v, from.At(v) + {p}) else from, acts + [a])
  {
    FirstBindBack(variant, acts, v, p);
    FirstBindRange(variant, acts, p);
  }

  lemma OneMoreBind(binds: PerOutcome<set<Id>>, order: seq<int>, v: int, p: Id)
    requires Ordered(binds, order) && 0 <= v <= Bot && p !in binds.At(v)
    ensures Ordered(binds.Put(v, binds.At(v) + {p}), order + [v])
    ensures |binds.At(v) + {p}| == Occurs(order + [v], v)
  {
    assert |binds.At(v) + {p}| == |binds.At(v)| + 1;
    OccursBack(order, v, 0);
    OccursBack(order, v, 1);
    OccursBack(order, v, 2);
  }

  lemma {:induction false} AllSame(order: seq<int>, v: int)
    ensures Occurs(order, v) <= |order|
    ensures Occurs(order, v) == |order| <==> forall i :: 0 <= i < |order| ==> order[i] == v
  {
    if order != [] {
      var k := |order| - 1;
      AllSame(order[..k], v);
      assert forall i :: 0 <= i < k ==> order[i] == order[..k][i];
    }
  }

  // The bind that makes n - f signals bot unless it makes a quorum of one value.
  lemma MixedStep(q: int, order: seq<int>, v: int)
    requires q > 0
    ensures Mixed(q, order + [v]) <==> Mixed(q, order) || (|order| + 1 == q && Occurs(order + [v], v) != q)
    ensures |order| >= q ==> (Mixed(q, order + [v]) <==> Mixed(q, order))
  {
    var more := order + [v];
    if |order| >= q {
      assert more[..q] == order[..q];
    } else if |order| + 1 == q {
      assert more[..q] == more;
      AllSame(more, v);
      assert more[|order|] == v;
    }
  }

  lemma BindCounted(s: State, acts: Acts, v: int, from: Id)
    requires BindDid(s, acts) && BindAccepted(s.variant, s.bind, v, from) && s.f < s.n
    ensures BindDid(s.(bind := CountBind(s.Quorum(), s.bind, v, from)), acts + [Receive(from, BindMsg(v))])
  {
    var b := CountBind(s.Quorum(), s.bind, v, from);
    CountedBinder(s.variant, s.Quorum(), s.vote.voter.SawBoth?, s.vote.bindBot, s.vote.bindVal, s.bind, s.decide, acts, v, from);
    BindDidAgain(s, s.(bind := b), acts + [Receive(from, BindMsg(v))]);
  }

  lemma BindDidAgain(s: State, t: State, acts: Acts)
    requires BinderIs(s.variant, s.Quorum(), t.vote.voter.SawBoth?, t.vote.bindBot, t.vote.bindVal, t.bind, t.decide, acts)
    requires t.variant == s.variant && t.n == s.n && t.f == s.f
    ensures BindDid(t, acts)
  {
  }

  lemma CountedBinder(variant: Variant, q: int, sawBoth: bool, bindBot: Chan<()>, bindVal: Chan<int>, b: BindStage, d: DecideStage,
                      acts: Acts, v: int, from: Id)
    requires BinderIs(variant, q, sawBoth, bindBot, bindVal, b, d, acts) && BindAccepted(variant, b, v, from) && q > 0
    ensures BinderIs(variant, q, sawBoth, bindBot, bindVal, CountBind(q, b, v, from), d, acts + [Receive(from, BindMsg(v))])
  {
    BindNoted(variant, b, acts, v, from);
    BindSignals(q, b, BindOrder(variant, acts), v, from, sawBoth);
    BindJobs(q, bindBot, bindVal, b, d, acts, v, from);
  }

  lemma BindJobs(q: int, bindBot: Chan<()>, bindVal: Chan<int>, b: BindStage, d: DecideStage, acts: Acts, v: int, from: Id)
    requires BinderDid(bindBot, bindVal, b, acts) && DeciderDid(b.termVal, b.termBot, d, acts)
    ensures var b', acts' := CountBind(q, b, v, from), acts + [Receive(from, BindMsg(v))];
            BinderDid(bindBot, bindVal, b', acts') && DeciderDid(b'.termVal, b'.termBot, d, acts')
  {
    DeciderSent(b.termVal, b.termBot, d, acts, v);
    NoBinderJob(bindBot, bindVal, b, CountBind(q, b, v, from), d, acts, Receive(from, BindMsg(v)));
  }

  lemma BindNoted(variant: Variant, b: BindStage, acts: Acts, v: int, from: Id)
    requires BindsCounted(variant, b.from, acts) && BindAccepted(variant, b, v, from)
    ensures BindsCounted(variant, b.from.Put(v, b.from.At(v) + {from}), acts + [Receive(from, BindMsg(v))])
    ensures BindOrder(variant, acts + [Receive(from, BindMsg(v))]) == BindOrder(variant, acts) + [v]
  {
    FirstBindBack(variant, acts, v, from);
    BindsHeard(variant, b.from, acts, v, from);
  }

  lemma BindSignals(q: int, b: BindStage, order: seq<int>, v: int, from: Id, sawBoth: bool)
    requires q > 0 && 0 <= v <= Bot && from !in b.from.At(v)
    requires Ordered(b.from, order) && Signalled(q, order, sawBoth, |b.termBot.sent|)
    ensures var b' := CountBind(q, b, v, from);
            Ordered(b'.from, order + [v]) && Signalled(q, order + [v], sawBoth, |b'.termBot.sent|)
  {
    OneMoreBind(b.from, order, v, from);
    MixedStep(q, order, v);
  }

  // A bind received leaves the records of waitToBind and waitToDecide as they are.
  lemma NoBinderJob(bindBot: Chan<()>, bindVal: Chan<int>, b: BindStage, b': BindStage, d: DecideStage, acts: Acts, a: Action)
    requires !a.Run? && BinderDid(bindBot, bindVal, b, acts) && DeciderDid(b'.termVal, b'.termBot, d, acts)
    requires b'.bcast == b.bcast && b'.done == b.done
    ensures BinderDid(bindBot, bindVal, b', acts + [a]) && DeciderDid(b'.termVal, b'.termBot, d, acts + [a])
  {
    TimesBack(acts, a);
  }

  lemma BindMsgDid(s: State, acts: Acts, v: int, from: Id)
    requires Did(s, acts) && s.f < s.n
    ensures Did(SubmitBind(s, v, from), acts + [Receive(from, BindMsg(v))])
  {
    var a, t := Receive(from, BindMsg(v)), SubmitBind(s, v, from);
    MadeBack(s.variant, acts, a);
    EchoRecord(s.variant, s.n, s.f, s.echo, s.proposals, acts, a);
    VoteRecord(s, t, acts, a);
    if BindAccepted(s.variant, s.bind, v, from) {
      BindCounted(s, acts, v, from);
    } else {
      BindRefused(s, acts, v, from);
    }
  }

  lemma BindRefused(s: State, acts: Acts, v: int, from: Id)
    requires BindDid(s, acts) && !BindAccepted(s.variant, s.bind, v, from)
    ensures BindDid(s, acts + [Receive(from, BindMsg(v))])
  {
    FirstBindBack(s.variant, acts, v, from);
    BindsHeard(s.variant, s.bind.from, acts, v, from);
    assert BindOrder(s.variant, acts) + [] == BindOrder(s.variant, acts);
    NoBinderJob(s.vote.bindBot, s.vote.bindVal, s.bind, s.bind, s.decide, acts, Receive(from, BindMsg(v)));
  }

  // ---- goroutines

  lemma OtherVoter(variant: Variant, voter: Voter, approve: Chan<int>, w: seq<int>, u: nat, acts: Acts, j: Job)
    requires VoterDid(variant, voter, approve, w, u, acts) && !j.VoteFirst? && !j.VoteSecond? && !j.VoteUnblock?
    ensures VoterDid(variant, voter, approve, w, u, acts + [Run(j)])
  {
    TimesBack(acts, Run(j));
  }

  lemma OtherBinder(bindBot: Chan<()>, bindVal: Chan<int>, b: BindStage, acts: Acts, j: Job)
    requires BinderDid(bindBot, bindVal, b, acts) && !j.BindBot? && !j.BindVal?
    ensures BinderDid(bindBot, bindVal, b, acts + [Run(j)])
  {
    TimesBack(acts, Run(j));
  }

  lemma OtherDecider(termVal: Chan<int>, termBot: Chan<()>, d: DecideStage, acts: Acts, j: Job)
    requires DeciderDid(termVal, termBot, d, acts) && !j.DecideVal? && !j.DecideBot?
    ensures DeciderDid(termVal, termBot, d.(unblock := d.unblock.Take()), acts + [Run(j)])
    ensures DeciderDid(termVal, termBot, d, acts + [Run(j)])
  {
    TimesBack(acts, Run(j));
  }

  lemma FirstTaken(variant: Variant, approve: Chan<int>, u: nat, acts: Acts)
    requires VoterDid(variant, AwaitFirst, approve, [], u, acts) && approve.Ready() && approve.taken == 0
    ensures VoterDid(variant, AwaitSecond(approve.Head()), approve.Take(), [approve.Head()], u, acts + [Run(VoteFirst)])
  {
    TimesBack(acts, Run(VoteFirst));
    assert approve.sent[..1] == [approve.Head()];
  }

  lemma SecondTaken(variant: Variant, first: int, approve: Chan<int>, bcast: seq<int>, u: nat, acts: Acts)
    requires VoterDid(variant, AwaitSecond(first), approve, bcast, u, acts) && approve.Ready() && approve.taken > 0 && approve.sent[0] == first
    ensures var again := variant == External && approve.Head() == first;
            VoterDid(variant, if again then AwaitSecond(first) else SawBoth, approve.Take(), bcast, u, acts + [Run(VoteSecond)])
  {
    TimesBack(acts, Run(VoteSecond));
    var before, after := approve.sent[..approve.taken], approve.sent[..approve.taken + 1];
    assert after == before + [approve.Head()];
    assert !Differ(before) || variant == Internal;
    assert after[approve.taken] == approve.Head() && after[0] == first;
    assert variant == External ==> forall i :: 0 <= i < |before| ==> before[i] == first;
  }

  lemma UnblockTaken(variant: Variant, first: int, approve: Chan<int>, bcast: seq<int>, acts: Acts)
    requires VoterDid(variant, AwaitSecond(first), approve, bcast, 0, acts)
    ensures VoterDid(variant, Unblocked, approve, bcast, 1, acts + [Run(VoteUnblock)])
  {
    TimesBack(acts, Run(VoteUnblock));
  }

  lemma BoundTaken(bindBot: Chan<()>, bindVal: Chan<int>, b: BindStage, acts: Acts)
    requires BinderDid(bindBot, bindVal, b, acts) && !b.done
    ensures BinderDid(bindBot.Take(), bindVal, BindOn(b, 2), acts + [Run(BindBot)])
    ensures bindVal.Ready() ==> BinderDid(bindBot, bindVal.Take(), BindOn(b, bindVal.Head()), acts + [Run(BindVal)])
  {
    TimesBack(acts, Run(BindBot));
    TimesBack(acts, Run(BindVal));
    assert bindVal.Ready() ==> bindVal.sent[..1] == [bindVal.Head()];
  }

  lemma ValueTaken(termVal: Chan<int>, termBot: Chan<()>, d: DecideStage, acts: Acts)
    requires DeciderDid(termVal, termBot, d, acts) && !d.decider.Decided? && termVal.Ready()
    ensures DeciderDid(termVal.Take(), termBot, Emit(d, termVal.Head()), acts + [Run(DecideVal)])
  {
    TimesBack(acts, Run(DecideVal));
    assert termVal.sent[..1] == [termVal.Head()];
  }

  lemma SignalTaken(termVal: Chan<int>, termBot: Chan<()>, d: DecideStage, acts: Acts)
    requires DeciderDid(termVal, termBot, d, acts) && !d.decider.Decided? && (d.decider.AwaitSignal? <==> termBot.taken == 0)
    ensures DeciderDid(termVal, termBot.Take(), if d.decider.AwaitSignal? then d.(decider := AwaitMore) else Emit(d, 2), acts + [Run(DecideBot)])
  {
    TimesBack(acts, Run(DecideBot));
  }

  // Where the goroutines stand, from the local invariant.
  ghost predicate Standing(s: State) {
    && s.f < s.n
    && (s.vote.voter.AwaitFirst? ==> s.echo.approve.taken == 0 && s.vote.bcast == [])
    && (s.vote.voter.AwaitSecond? ==> s.echo.approve.taken > 0 && s.echo.approve.sent != [] && s.echo.approve.sent[0] == s.vote.voter.first
                                      && s.vote.bcast == [s.vote.voter.first])
    && (!s.vote.voter.Unblocked? ==> s.decide.unblock.taken == 0)
    && (!s.decide.decider.Decided? ==> (s.decide.decider.AwaitSignal? <==> s.bind.termBot.taken == 0))
  }

  lemma LocalStanding(s: State)
    requires LocalInv(s)
    ensures Standing(s)
  {
  }

  lemma VoteJobVotes(s: State, acts: Acts, j: Job)
    requires VoteDid(s, acts) && Standing(s) && Enabled(s, j) && (j.VoteFirst? || j.VoteSecond? || j.VoteUnblock?)
    ensures VoteDid(Work(s, j), acts + [Run(j)])
  {
    FirstsKept(s.variant, acts, Run(j));
    match j
    case VoteFirst => FirstTaken(s.variant, s.echo.approve, s.decide.unblock.taken, acts);
    case VoteSecond => SecondTaken(s.variant, s.vote.voter.first, s.echo.approve, s.vote.bcast, s.decide.unblock.taken, acts);
    case VoteUnblock => UnblockTaken(s.variant, s.vote.voter.first, s.echo.approve, s.vote.bcast, acts);
  }

  lemma OtherJobVotes(s: State, acts: Acts, j: Job)
    requires VoteDid(s, acts) && Enabled(s, j) && !j.VoteFirst? && !j.VoteSecond? && !j.VoteUnblock?
    ensures VoteDid(Work(s, j), acts + [Run(j)])
  {
    FirstsKept(s.variant, acts, Run(j));
    OtherVoter(s.variant, s.vote.voter, s.echo.approve, s.vote.bcast, s.decide.unblock.taken, acts, j);
  }

  // A step that is no bind received changes nothing that is said of the binds alone.
  lemma NoBind(variant: Variant, from: PerOutcome<set<Id>>, acts: Acts, a: Action)
    requires BindsCounted(variant, from, acts) && a.Run?
    ensures BindsCounted(variant, from, acts + [a]) && BindOrder(variant, acts + [a]) == BindOrder(variant, acts)
  {
    FirstsKept(variant, acts, a);
  }

  lemma VoteJobBinds(s: State, acts: Acts, j: Job)
    requires BindDid(s, acts) && Standing(s) && Enabled(s, j) && (j.VoteFirst? || j.VoteUnblock?)
    ensures BindDid(Work(s, j), acts + [Run(j)])
  {
    NoBind(s.variant, s.bind.from, acts, Run(j));
    OtherBinder(s.vote.bindBot, s.vote.bindVal, s.bind, acts, j);
    OtherDecider(s.bind.termVal, s.bind.termBot, s.decide, acts, j);
  }

  lemma SecondBinder(variant: Variant, q: int, bindBot: Chan<()>, bindVal: Chan<int>, b: BindStage, d: DecideStage, acts: Acts)
    requires BinderIs(variant, q, false, bindBot, bindVal, b, d, acts)
    ensures BinderIs(variant, q, false, bindBot, bindVal, b, d, acts + [Run(VoteSecond)])
    ensures BinderIs(variant, q, true, bindBot.Send(()), bindVal, b.(termBot := b.termBot.Send(())), d, acts + [Run(VoteSecond)])
  {
    NoBind(variant, b.from, acts, Run(VoteSecond));
    DeciderSent(b.termVal, b.termBot, d, acts, 0);
    BinderSent(bindBot, bindVal, b, acts, 0);
    OtherBinder(bindBot, bindVal, b, acts, VoteSecond);
    OtherBinder(bindBot.Send(()), bindVal, b, acts, VoteSecond);
    OtherDecider(b.termVal, b.termBot, d, acts, VoteSecond);
    OtherDecider(b.termVal, b.termBot.Send(()), d, acts, VoteSecond);
  }

  lemma BindBotBinds(s: State, acts: Acts)
    requires BindDid(s, acts) && Enabled(s, BindBot)
    ensures BindDid(Work(s, BindBot), acts + [Run(BindBot)])
  {
    BoundBinder(s.variant, s.Quorum(), s.vote.voter.SawBoth?, s.vote.bindBot, s.vote.bindVal, s.bind, s.decide, acts);
    BindDidAgain(s, Work(s, BindBot), acts + [Run(BindBot)]);
  }

  lemma BindValBinds(s: State, acts: Acts)
    requires BindDid(s, acts) && Enabled(s, BindVal)
    ensures BindDid(Work(s, BindVal), acts + [Run(BindVal)])
  {
    BoundBinder(s.variant, s.Quorum(), s.vote.voter.SawBoth?, s.vote.bindBot, s.vote.bindVal, s.bind, s.decide, acts);
    BindDidAgain(s, Work(s, BindVal), acts + [Run(BindVal)]);
  }

  lemma BoundBinder(variant: Variant, q: int, sawBoth: bool, bindBot: Chan<()>, bindVal: Chan<int>, b: BindStage, d: DecideStage, acts: Acts)
    requires BinderIs(variant, q, sawBoth, bindBot, bindVal, b, d, acts) && !b.done
    ensures BinderIs(variant, q, sawBoth, bindBot.Take(), bindVal, BindOn(b, 2), d, acts + [Run(BindBot)])
    ensures bindVal.Ready() ==> BinderIs(variant, q, sawBoth, bindBot, bindVal.Take(), BindOn(b, bindVal.Head()), d, acts + [Run(BindVal)])
  {
    BoundTaken(bindBot, bindVal, b, acts);
    NoBind(variant, b.from, acts, Run(BindBot));
    NoBind(variant, b.from, acts, Run(BindVal));
    OtherDecider(b.termVal, b.termBot, d, acts, BindBot);
    OtherDecider(b.termVal, b.termBot, d, acts, BindVal);
  }

  lemma DecideValBinds(s: State, acts: Acts)
    requires BindDid(s, acts) && Enabled(s, DecideVal)
    ensures BindDid(Work(s, DecideVal), acts + [Run(DecideVal)])
  {
    ValueDecider(s.variant, s.Quorum(), s.vote.voter.SawBoth?, s.vote.bindBot, s.vote.bindVal, s.bind, s.decide, acts);
    BindDidAgain(s, Work(s, DecideVal), acts + [Run(DecideVal)]);
  }

  lemma ValueDecider(variant: Variant, q: int, sawBoth: bool, bindBot: Chan<()>, bindVal: Chan<int>, b: BindStage, d: DecideStage, acts: Acts)
    requires BinderIs(variant, q, sawBoth, bindBot, bindVal, b, d, acts) && !d.decider.Decided? && b.termVal.Ready()
    ensures BinderIs(variant, q, sawBoth, bindBot, bindVal, b.(termVal := b.termVal.Take()), Emit(d, b.termVal.Head()), acts + [Run(DecideVal)])
  {
    NoBind(variant, b.from, acts, Run(DecideVal));
    OtherBinder(bindBot, bindVal, b, acts, DecideVal);
    ValueTaken(b.termVal, b.termBot, d, acts);
  }

  lemma DecideBotBinds(s: State, acts: Acts)
    requires BindDid(s, acts) && Standing(s) && Enabled(s, DecideBot)
    ensures BindDid(Work(s, DecideBot), acts + [Run(DecideBot)])
  {
    SignalDecider(s.variant, s.Quorum(), s.vote.voter.SawBoth?, s.vote.bindBot, s.vote.bindVal, s.bind, s.decide, acts);
    BindDidAgain(s, Work(s, DecideBot), acts + [Run(DecideBot)]);
  }

  lemma SignalDecider(variant: Variant, q: int, sawBoth: bool, bindBot: Chan<()>, bindVal: Chan<int>, b: BindStage, d: DecideStage, acts: Acts)
    requires BinderIs(variant, q, sawBoth, bindBot, bindVal, b, d, acts) && !d.decider.Decided?
    requires d.decider.AwaitSignal? <==> b.termBot.taken == 0
    ensures BinderIs(variant, q, sawBoth, bindBot, bindVal, b.(termBot := b.termBot.Take()),
                     if d.decider.AwaitSignal? then d.(decider := AwaitMore) else Emit(d, 2), acts + [Run(DecideBot)])
  {
    NoBind(variant, b.from, acts, Run(DecideBot));
    OtherBinder(bindBot, bindVal, b, acts, DecideBot);
    SignalTaken(b.termVal, b.termBot, d, acts);
  }

  lemma JobEchoes(s: State, acts: Acts, j: Job)
    requires EchoDid(s.variant, s.n, s.f, s.echo, s.proposals, acts) && Enabled(s, j)
    ensures var t := Work(s, j);
            t.proposals == s.proposals && EchoDid(s.variant, s.n, s.f, t.echo, s.proposals, acts + [Run(j)])
  {
    EchoRecord(s.variant, s.n, s.f, s.echo, s.proposals, acts, Run(j));
  }

  lemma JobDid(s: State, acts: Acts, j: Job)
    requires Did(s, acts) && Standing(s) && Enabled(s, j)
    ensures Did(Work(s, j), acts + [Run(j)])
  {
    MadeBack(s.variant, acts, Run(j));
    JobEchoes(s, acts, j);
    CrusaderRuns.WorkFrame(s, j);
    if j.VoteFirst? || j.VoteSecond? || j.VoteUnblock? {
      VoteJobVotes(s, acts, j);
      if j.VoteSecond? {
        SecondBinder(s.variant, s.Quorum(), s.vote.bindBot, s.vote.bindVal, s.bind, s.decide, acts);
        BindDidAgain(s, Work(s, j), acts + [Run(j)]);
      } else {
        VoteJobBinds(s, acts, j);
      }
    } else {
      OtherJobVotes(s, acts, j);
      if j.BindBot? {
        BindBotBinds(s, acts);
      } else if j.BindVal? {
        BindValBinds(s, acts);
      } else if j.DecideVal? {
        DecideValBinds(s, acts);
      } else {
        DecideBotBinds(s, acts);
      }
    }
  }

  // ---- every run

  lemma ReceiveDid(s: State, acts: Acts, from: Id, m: Message)
    requires Did(s, acts) && s.f < s.n
    ensures Did(Handle(s, from, m), acts + [Receive(from, m)])
  {
    match m
    case EchoMsg(v) => EchoMsgDid(s, acts, v, from);
    case VoteMsg(v) => VoteMsgDid(s, acts, v, from);
    case BindMsg(v) => BindMsgDid(s, acts, v, from);
  }

  lemma ActionDid(s: State, acts: Acts, a: Action)
    requires Did(s, acts) && Standing(s) && Can(s, a)
    ensures Did(Apply(s, a), acts + [a])
  {
    match a
    case Start(est, coin) => StartDid(s, acts, est, coin);
    case Receive(from, m) => ReceiveDid(s, acts, from, m);
    case Run(j) => JobDid(s, acts, j);
  }

  lemma FreshDid(variant: Variant, n: nat, f: nat)
    requires f < n
    ensures Did(Fresh(variant, n, f), [])
  {
  }

  lemma {:induction false} DidAfter(s: State, before: Acts, acts: Acts)
    requires Did(s, before) && LocalInv(s) && Runs(s, acts)
    ensures Did(After(s, acts), before + acts) && LocalInv(After(s, acts))
    decreases |acts|
  {
    if acts == [] {
      assert before + acts == before;
    } else {
      NextDid(s, before, acts[0]);
      SplitFirst(before, acts);
      DidAfter(Apply(s, acts[0]), before + [acts[0]], acts[1..]);
    }
  }

  lemma SplitFirst(before: Acts, acts: Acts)
    requires acts != []
    ensures before + acts == before + [acts[0]] + acts[1..]
  {
  }

  lemma NextDid(s: State, acts: Acts, a: Action)
    requires Did(s, acts) && LocalInv(s) && Can(s, a)
    ensures Did(Apply(s, a), acts + [a]) && LocalInv(Apply(s, a))
  {
    ApplyInv(s, a);
    LocalStanding(s);
    ActionDid(s, acts, a);
  }

  /** Over every action sequence of a node: whom it counted for what, by first message; what it proposed; what
      it echoed and approved, by proposals and counts; and what each goroutine took and put out. */
  lemma NodeIsItsHistory(variant: Variant, n: nat, f: nat, acts: Acts)
    requires f < n && Runs(Fresh(variant, n, f), acts)
    ensures Did(After(Fresh(variant, n, f), acts), acts) && LocalInv(After(Fresh(variant, n, f), acts))
  {
    FreshInv(variant, n, f);
    FreshDid(variant, n, f);
    DidAfter(Fresh(variant, n, f), [], acts);
    assert [] + acts == acts;
  }

  /** Which receives each goroutine can make next, told from what it has received and what has been sent: a
      `select` with two channels ready can take either. */
  lemma WaitsExactly(s: State, acts: Acts)
    requires Did(s, acts) && LocalInv(s)
    ensures Enabled(s, VoteFirst) <==> Times(acts, VoteFirst) == 0 && s.echo.approve.sent != []
    ensures Enabled(s, VoteSecond) <==>
              && Times(acts, VoteFirst) > 0 && Times(acts, VoteUnblock) == 0 && s.vote.bindBot.sent == []
              && Times(acts, VoteFirst) + Times(acts, VoteSecond) < |s.echo.approve.sent|
    ensures Enabled(s, VoteUnblock) <==>
              && s.variant == Internal && Times(acts, VoteFirst) > 0 && Times(acts, VoteSecond) == 0
              && Times(acts, VoteUnblock) == 0 && s.decide.output != []
    ensures Enabled(s, BindBot) <==> s.bind.bcast == [] && s.vote.bindBot.sent != []
    ensures Enabled(s, BindVal) <==> s.bind.bcast == [] && s.vote.bindVal.sent != []
    ensures Enabled(s, DecideVal) <==> s.decide.output == [] && s.bind.termVal.sent != []
    ensures Enabled(s, DecideBot) <==> s.decide.output == [] && Times(acts, DecideBot) < |s.bind.termBot.sent|
  {
    LocalStanding(s);
    VoterWaits(s, acts);
    BinderWaits(s, acts);
  }

  lemma VoterWaits(s: State, acts: Acts)
    requires VoterDid(s.variant, s.vote.voter, s.echo.approve, s.vote.bcast, s.decide.unblock.taken, acts) && Standing(s)
    requires s.vote.bindBot.sent == (if s.vote.voter.SawBoth? then [()] else [])
    requires s.decide.unblock.sent == (if s.decide.output != [] then [()] else [])
    ensures Enabled(s, VoteFirst) <==> Times(acts, VoteFirst) == 0 && s.echo.approve.sent != []
    ensures Enabled(s, VoteSecond) <==>
              && Times(acts, VoteFirst) > 0 && Times(acts, VoteUnblock) == 0 && s.vote.bindBot.sent == []
              && Times(acts, VoteFirst) + Times(acts, VoteSecond) < |s.echo.approve.sent|
    ensures Enabled(s, VoteUnblock) <==>
              && s.variant == Internal && Times(acts, VoteFirst) > 0 && Times(acts, VoteSecond) == 0
              && Times(acts, VoteUnblock) == 0 && s.decide.output != []
  {
  }

  lemma BinderWaits(s: State, acts: Acts)
    requires BinderDid(s.vote.bindBot, s.vote.bindVal, s.bind, acts) && DeciderDid(s.bind.termVal, s.bind.termBot, s.decide, acts)
    ensures Enabled(s, BindBot) <==> s.bind.bcast == [] && s.vote.bindBot.sent != []
    ensures Enabled(s, BindVal) <==> s.bind.bcast == [] && s.vote.bindVal.sent != []
    ensures Enabled(s, DecideVal) <==> s.decide.output == [] && s.bind.termVal.sent != []
    ensures Enabled(s, DecideBot) <==> s.decide.output == [] && Times(acts, DecideBot) < |s.bind.termBot.sent|
  {
  }

  // ---- what follows for a proposal in a later round

  lemma {:induction false} ShortcutTaken(ps: seq<Proposal>, x: Proposal, v: int)
    requires x in ps && x.coin == v && (x.est == v || x.est == 2)
    ensures Shortcuts(ps, v) > 0
  {
    var k := |ps| - 1;
    if ps[k] != x {
      ShortcutTaken(ps[..k], x, v);
    }
  }

  lemma {:induction false} OccursIn(q: seq<int>, v: int)
    ensures Occurs(q, v) > 0 <==> v in q
  {
    if q != [] {
      var k := |q| - 1;
      OccursIn(q[..k], v);
      assert q == q[..k] + [q[k]];
    }
  }

  // A later round marks the echo of an estimate that its coin contradicts, and broadcasts what it marks unless
  // a fast forward or a vote on the coin marked it; those approve the coin at once.
  ghost predicate LaterEchoes(s: State, v: int) {
    && (Proposal(v, 1 - v) in s.proposals ==> s.echo.sent.At(v))
    && (s.echo.sent.At(v) ==> v in s.echo.bcast || Proposal(v, v) in s.proposals
                              || Proposal(2, 0) in s.proposals || Proposal(2, 1) in s.proposals)
    && (Proposal(v, v) in s.proposals || Proposal(2, v) in s.proposals ==> v in s.echo.approve.sent)
    && (Proposal(v, v) in s.proposals ==> v in s.vote.bindVal.sent)
  }

  /** Whatever a node of a later round does, its proposals are answered for: echoed, or approved. */
  lemma ProposalsAnswered(n: nat, f: nat, acts: Acts, v: int)
    requires f < n && Runs(Fresh(External, n, f), acts) && IsBit(v)
    ensures LaterEchoes(After(Fresh(External, n, f), acts), v)
  {
    NodeIsItsHistory(External, n, f, acts);
    var s := After(Fresh(External, n, f), acts);
    FrameAfter(Fresh(External, n, f), acts);
    OccursIn(s.echo.approve.sent, v);
    if Proposal(v, v) in s.proposals {
      ShortcutTaken(s.proposals, Proposal(v, v), v);
    }
    if Proposal(2, v) in s.proposals {
      ShortcutTaken(s.proposals, Proposal(2, v), v);
    }
  }
}
