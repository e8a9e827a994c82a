/** What a node of the binary agreement is after any of its events, said of the events themselves: which
    rounds have read and been closed, what was proposed onward and reached, whose reports were counted, and that
    each round is a crusader agreement performing exactly the actions addressed to it. */
module AgreementHistory {
  import opened Quorums
  import opened CrusaderNode
  import opened CrusaderInvariants
  import opened CrusaderStretches
  import opened CrusaderSafety
  import opened AgreementNode
  import opened AgreementRuns
  import opened AgreementDecisions
  import CrusaderHistory
  import AgreementRounds

  type Events = seq<Event>

  // ---- one node by itself

  predicate Possible(x: Node, e: Event) {
    match e
    case Work(r, job) => Enabled(Bca(x, r), job)
    case Read(r) => CanRead(x, r)
    case Toss(r) => ExecOf(x, r).AwaitCoin?
    case Output(adopted) => CanDeliver(x, adopted)
    case _ => true
  }

  ghost function Next1(coin: Coin, x: Node, e: Event): Node
    requires Possible(x, e)
  {
    match e
    case Propose(est) => Act(x, 0, Start(est, Bot))
    case Receive(r, from, msg) => Act(x, r, Action.Receive(from, msg))
    case Work(r, job) => Act(x, r, Action.Run(job))
    case Read(r) => ReadDecision(x, r)
    case Toss(r) => SubmitCoin(x, r, coin(r))
    case Hear(from, d) => Report(x, d, from)
    case Output(adopted) => Deliver(x, adopted)
  }

  // The nodes a node has been, one after each of its events.
  ghost predicate Lives(coin: Coin, n: nat, f: nat, lives: seq<Node>, es: Events) {
    && |lives| == |es| + 1 && lives[0] == InitialNode(n, f)
    && forall i :: 0 <= i < |es| ==> OneEvent(coin, lives[i], es[i], lives[i + 1])
  }

  ghost predicate OneEvent(coin: Coin, before: Node, e: Event, x: Node) {
    Possible(before, e) && x == Next1(coin, before, e)
  }

  // ---- the events

  // The actions addressed to round r, other than the proposal that the round before makes.
  function Addressed(es: Events, r: nat): seq<Action> {
    if es == [] then []
    else
      Addressed(es[..|es| - 1], r) +
      match es[|es| - 1]
      case Propose(est) => (if r == 0 then [Start(est, 2)] else [])
      case Receive(k, from, msg) => (if k == r then [Action.Receive(from, msg)] else [])
      case Work(k, job) => (if k == r then [Action.Run(job)] else [])
      case _ => []
  }

  const Silent := -1

  // The decision in the first valid report of q.
  function FirstReport(es: Events, q: Id): int {
    if es == [] then Silent
    else
      var last, before := es[|es| - 1], FirstReport(es[..|es| - 1], q);
      if before != Silent then before
      else if last.Hear? && last.from == q && (last.d == 0 || last.d == 1) then last.d
      else Silent
  }

  // ---- what the node is

  function Unstarted(acts: seq<Action>, r: nat): seq<Action> {
    if acts == [] then []
    else
      var last := acts[|acts| - 1];
      Unstarted(acts[..|acts| - 1], r) + if r > 0 && last.Start? then [] else [last]
  }

  // Round r performed the actions addressed to it, in order.
  ghost predicate RoundDid(x: Node, es: Events, r: nat) {
    exists acts :: Go(Fresh(VariantOf(r), x.n, x.f), acts, Bca(x, r)) && Unstarted(acts, r) == Addressed(es, r)
  }

  ghost predicate ExecDid(coin: Coin, e: Exec, output: seq<int>, es: Events, r: nat) {
    && (e.AwaitDecision? <==> Read(r) !in es)
    && (e.Finished? <==> Toss(r) in es)
    && (!e.AwaitDecision? ==> output == [e.dec])
    && (e.Finished? ==> e.coin == coin(r))
  }

  // What finishing a round proposes to the next.
  function Onward(e: Exec): seq<Proposal>
    requires e.Finished?
  {
    [Proposal(if e.dec == 2 then e.coin else e.dec, e.coin)]
  }

  // A closed round has proposed onward, unless it is the one that decided.
  ghost predicate ProposedOnward(x: Node, decider: int, r: nat) {
    Bca(x, r + 1).proposals == if ExecOf(x, r).Finished? && r != decider then Onward(ExecOf(x, r)) else []
  }

  ghost predicate AllOnward(x: Node, decider: int) {
    forall r: nat :: ProposedOnward(x, decider, r)
  }

  // A decision is reached as soon as some round closes with its coin equal to its decision.
  ghost predicate Reaches(x: Node, decider: int) {
    && (x.hasDecided <==> decider >= 0)
    && (x.hasDecided <==> exists r: nat, v :: DecidedIn(x, r, v))
    && (decider >= 0 ==> ExecOf(x, decider).Finished? && ExecOf(x, decider).dec == ExecOf(x, decider).coin)
    && x.reached == if decider >= 0 && ExecOf(x, decider).Finished? then [ExecOf(x, decider).dec] else []
  }

  ghost predicate ReportsCounted(reports: PerBit<set<Id>>, es: Events) {
    forall q :: (q in reports.zero <==> FirstReport(es, q) == 0) && (q in reports.one <==> FirstReport(es, q) == 1)
  }

  ghost predicate DeliveredDid(x: Node, es: Events) {
    && (x.delivered != [] <==> Output(true) in es || Output(false) in es)
    && (Output(false) in es ==> x.reached != [] && x.delivered == x.reached[..1])
    && (Output(true) in es ==> x.gadget.deliver != [] && x.delivered == x.gadget.deliver[..1])
  }

  ghost predicate AllRounds(x: Node, es: Events) {
    forall r: nat :: RoundDid(x, es, r)
  }

  ghost predicate AllExecs(coin: Coin, x: Node, es: Events) {
    forall r: nat :: ExecAt(coin, x, es, r)
  }

  ghost predicate ExecAt(coin: Coin, x: Node, es: Events, r: nat) {
    ExecDid(coin, ExecOf(x, r), Bca(x, r).decide.output, es, r)
  }

  ghost predicate GadgetDid(t: Gadget, n: nat, f: nat, es: Events) {
    t.n == n && t.f == f && ReportsCounted(t.reports, es) && GadgetLevel(t)
  }

  ghost predicate Did(coin: Coin, n: nat, f: nat, x: Node, es: Events, decider: int) {
    && x.n == n && x.f == f && decider >= -1 && f < n
    && AllRounds(x, es) && AllExecs(coin, x, es) && AllOnward(x, decider) && Reaches(x, decider)
    && GadgetDid(x.gadget, n, f, es) && DeliveredDid(x, es)
  }

  // ---- one more event

  lemma Front(es: Events, e: Event)
    ensures (es + [e])[..|es|] == es && (es + [e])[|es|] == e
    ensures forall y :: y in es + [e] <==> y in es || y == e
  {
  }

  lemma UnstartedBack(acts: seq<Action>, a: Action, r: nat)
    ensures Unstarted(acts + [a], r) == Unstarted(acts, r) + if r > 0 && a.Start? then [] else [a]
  {
    assert (acts + [a])[..|acts|] == acts;
  }

  // The round's crusader agreement is in its local invariant.
  lemma RoundLocal(x: Node, es: Events, r: nat)
    requires RoundDid(x, es, r) && x.f < x.n
    ensures LocalInv(Bca(x, r)) && Bca(x, r).variant == VariantOf(r)
  {
    var acts :| Go(Fresh(VariantOf(r), x.n, x.f), acts, Bca(x, r)) && Unstarted(acts, r) == Addressed(es, r);
    CrusaderHistory.NodeIsItsHistory(VariantOf(r), x.n, x.f, acts);
    FrameAfter(Fresh(VariantOf(r), x.n, x.f), acts);
  }

  lemma RoundSame(x: Node, x': Node, es: Events, e: Event, r: nat)
    requires RoundDid(x, es, r) && x'.n == x.n && x'.f == x.f && Bca(x', r) == Bca(x, r) && Addressed(es + [e], r) == Addressed(es, r)
    ensures RoundDid(x', es + [e], r)
  {
    var acts :| Go(Fresh(VariantOf(r), x.n, x.f), acts, Bca(x, r)) && Unstarted(acts, r) == Addressed(es, r);
    assert Go(Fresh(VariantOf(r), x'.n, x'.f), acts, Bca(x', r)) && Unstarted(acts, r) == Addressed(es + [e], r);
  }

  lemma RoundActs(x: Node, x': Node, es: Events, e: Event, r: nat, a: Action)
    requires RoundDid(x, es, r) && x'.n == x.n && x'.f == x.f && Can(Bca(x, r), a) && Bca(x', r) == Apply(Bca(x, r), a)
    requires Addressed(es + [e], r) == Addressed(es, r) + if r > 0 && a.Start? then [] else [a]
    ensures RoundDid(x', es + [e], r)
  {
    var s := Fresh(VariantOf(r), x.n, x.f);
    var acts :| Go(s, acts, Bca(x, r)) && Unstarted(acts, r) == Addressed(es, r);
    GoOn(s, acts, Bca(x, r), a, Bca(x', r));
    UnstartedBack(acts, a, r);
    assert Go(Fresh(VariantOf(r), x'.n, x'.f), acts + [a], Bca(x', r)) && Unstarted(acts + [a], r) == Addressed(es + [e], r);
  }

  // Events that are not reports, and events that are not outputs, leave those records alone.
  lemma NoReport(t: Gadget, n: nat, f: nat, es: Events, e: Event)
    requires GadgetDid(t, n, f, es) && !e.Hear?
    ensures GadgetDid(t, n, f, es + [e])
  {
    Front(es, e);
  }

  lemma NoOutput(x: Node, x': Node, es: Events, e: Event)
    requires DeliveredDid(x, es) && !e.Output? && x'.delivered == x.delivered
    requires x.reached <= x'.reached && x.gadget.deliver <= x'.gadget.deliver
    ensures DeliveredDid(x', es + [e])
  {
    Front(es, e);
    assert x.reached != [] ==> x'.reached[..1] == x.reached[..1];
    assert x.gadget.deliver != [] ==> x'.gadget.deliver[..1] == x.gadget.deliver[..1];
  }

  // Nodes with the same execs reach the same.
  ghost predicate SameExecs(x: Node, x': Node) {
    forall r: nat :: ExecOf(x', r) == ExecOf(x, r)
  }

  lemma SameReaches(x: Node, x': Node, decider: int)
    requires Reaches(x, decider) && SameExecs(x, x') && x'.hasDecided == x.hasDecided && x'.reached == x.reached
    ensures Reaches(x', decider)
  {
    forall r: nat, v ensures DecidedIn(x', r, v) <==> DecidedIn(x, r, v) {
    }
  }

  // ---- actions of a crusader agreement

  lemma ActRoundsDid(x: Node, es: Events, e: Event, k: nat, a: Action)
    requires AllRounds(x, es) && Can(Bca(x, k), a) && (a.Start? ==> k == 0)
    requires forall r: nat :: Addressed(es + [e], r) == Addressed(es, r) + if r == k then [a] else []
    ensures AllRounds(Act(x, k, a), es + [e])
  {
    var x' := Act(x, k, a);
    forall r: nat ensures RoundDid(x', es + [e], r) {
      assert RoundDid(x, es, r);
      if r == k {
        RoundActs(x, x', es, e, r, a);
      } else {
        RoundSame(x, x', es, e, r);
      }
    }
  }

  lemma ActExecsDid(coin: Coin, x: Node, es: Events, e: Event, k: nat, a: Action)
    requires AllExecs(coin, x, es) && RoundDid(x, es, k) && x.f < x.n && Can(Bca(x, k), a) && !e.Read? && !e.Toss?
    ensures AllExecs(coin, Act(x, k, a), es + [e]) && SameExecs(x, Act(x, k, a))
  {
    var x' := Act(x, k, a);
    Front(es, e);
    RoundLocal(x, es, k);
    OutputFixed(Bca(x, k), a);
    forall r: nat ensures ExecAt(coin, x', es + [e], r) {
      assert ExecAt(coin, x, es, r);
    }
  }

  lemma ActOnward(x: Node, decider: int, k: nat, a: Action)
    requires AllOnward(x, decider) && Can(Bca(x, k), a) && (a.Start? ==> k == 0)
    ensures AllOnward(Act(x, k, a), decider)
  {
    var x' := Act(x, k, a);
    forall r: nat ensures ProposedOnward(x', decider, r) {
      assert ProposedOnward(x, decider, r);
      if r + 1 == k {
        AgreementRounds.ProposalsKept(Bca(x, k), a);
      }
    }
  }

  lemma ActDid(coin: Coin, n: nat, f: nat, x: Node, es: Events, decider: int, e: Event, k: nat, a: Action)
    requires Did(coin, n, f, x, es, decider) && Can(Bca(x, k), a) && (a.Start? ==> k == 0)
    requires forall r: nat :: Addressed(es + [e], r) == Addressed(es, r) + if r == k then [a] else []
    requires !e.Read? && !e.Toss? && !e.Hear? && !e.Output?
    ensures Did(coin, n, f, Act(x, k, a), es + [e], decider)
  {
    var x' := Act(x, k, a);
    assert RoundDid(x, es, k);
    ActRoundsDid(x, es, e, k, a);
    ActExecsDid(coin, x, es, e, k, a);
    ActOnward(x, decider, k, a);
    SameReaches(x, x', decider);
    NoReport(x.gadget, n, f, es, e);
    NoOutput(x, x', es, e);
  }

  lemma AddressedBack(es: Events, e: Event)
    ensures forall r: nat :: Addressed(es + [e], r) == Addressed(es, r) +
              match e
              case Propose(est) => (if r == 0 then [Start(est, 2)] else [])
              case Receive(k, from, msg) => (if k == r then [Action.Receive(from, msg)] else [])
              case Work(k, job) => (if k == r then [Action.Run(job)] else [])
              case _ => []
  {
    Front(es, e);
  }

  // ---- reading a decision

  lemma ReadRoundsDid(x: Node, es: Events, k: nat)
    requires AllRounds(x, es) && CanRead(x, k)
    ensures AllRounds(ReadDecision(x, k), es + [Read(k)])
  {
    var x' := ReadDecision(x, k);
    AddressedBack(es, Read(k));
    forall r: nat ensures RoundDid(x', es + [Read(k)], r) {
      assert RoundDid(x, es, r);
      RoundSame(x, x', es, Read(k), r);
    }
  }

  lemma ReadExecsDid(coin: Coin, x: Node, es: Events, k: nat)
    requires AllExecs(coin, x, es) && RoundDid(x, es, k) && x.f < x.n && CanRead(x, k)
    ensures AllExecs(coin, ReadDecision(x, k), es + [Read(k)])
  {
    var x' := ReadDecision(x, k);
    Front(es, Read(k));
    RoundLocal(x, es, k);
    OutputEvidence(Bca(x, k), Bca(x, k).decide.output[0]);
    forall r: nat ensures ExecAt(coin, x', es + [Read(k)], r) {
      assert ExecAt(coin, x, es, r);
    }
  }

  lemma ReadDid(coin: Coin, n: nat, f: nat, x: Node, es: Events, decider: int, k: nat)
    requires Did(coin, n, f, x, es, decider) && CanRead(x, k)
    ensures Did(coin, n, f, ReadDecision(x, k), es + [Read(k)], decider)
  {
    var x' := ReadDecision(x, k);
    assert RoundDid(x, es, k);
    ReadRoundsDid(x, es, k);
    ReadExecsDid(coin, x, es, k);
    ReadOnward(x, decider, k);
    NoReport(x.gadget, n, f, es, Read(k));
    NoOutput(x, x', es, Read(k));
  }

  lemma ReadOnward(x: Node, decider: int, k: nat)
    requires AllOnward(x, decider) && Reaches(x, decider) && CanRead(x, k)
    ensures AllOnward(ReadDecision(x, k), decider) && Reaches(ReadDecision(x, k), decider)
  {
    var x' := ReadDecision(x, k);
    forall r: nat ensures ProposedOnward(x', decider, r) {
      assert ProposedOnward(x, decider, r);
    }
    forall r: nat, v ensures DecidedIn(x', r, v) <==> DecidedIn(x, r, v) {
    }
  }

  // ---- the coin

  // What submitCoin does: it decides the first time the coin equals the decision, and proposes onward otherwise.
  lemma TossEffect(x: Node, k: nat, c: int)
    requires ExecOf(x, k).AwaitCoin? && IsBit(c)
    ensures var x', dec := SubmitCoin(x, k, c), ExecOf(x, k).dec;
            && (forall r: nat :: ExecOf(x', r) == if r == k then Finished(dec, c) else ExecOf(x, r))
            && x'.n == x.n && x'.f == x.f && x'.gadget == x.gadget && x'.delivered == x.delivered
            && if dec == c && !x.hasDecided
               then SameBcas(x, x') && x'.hasDecided && x'.reached == x.reached + [c]
               else
                 && x'.hasDecided == x.hasDecided && x'.reached == x.reached
                 && forall r: nat :: Bca(x', r) == if r == k + 1 then Apply(Bca(x, r), Start(if dec == 2 then c else dec, c)) else Bca(x, r)
  {
    var dec := ExecOf(x, k).dec;
    var y := WithRound(x, k, RoundOf(x, k).(exec := Finished(dec, c)));
    FinishShape(x, k, c, y);
    if !(dec == c && !x.hasDecided) {
      ActShape(y, k + 1, if dec == 2 then c else dec, c);
    }
  }

  lemma TossRoundsDid(coin: Coin, x: Node, es: Events, k: nat)
    requires AllRounds(x, es) && ExecOf(x, k).AwaitCoin? && IsBit(coin(k))
    ensures AllRounds(SubmitCoin(x, k, coin(k)), es + [Toss(k)])
  {
    var x' := SubmitCoin(x, k, coin(k));
    TossEffect(x, k, coin(k));
    AddressedBack(es, Toss(k));
    forall r: nat ensures RoundDid(x', es + [Toss(k)], r) {
      assert RoundDid(x, es, r);
      if Bca(x', r) == Bca(x, r) {
        RoundSame(x, x', es, Toss(k), r);
      } else {
        var dec := ExecOf(x, k).dec;
        RoundActs(x, x', es, Toss(k), r, Start(if dec == 2 then coin(k) else dec, coin(k)));
      }
    }
  }

  lemma TossExecsDid(coin: Coin, x: Node, es: Events, k: nat)
    requires AllExecs(coin, x, es) && ExecOf(x, k).AwaitCoin? && IsBit(coin(k))
    ensures AllExecs(coin, SubmitCoin(x, k, coin(k)), es + [Toss(k)])
  {
    var x' := SubmitCoin(x, k, coin(k));
    TossShape(x, k, coin(k));
    Front(es, Toss(k));
    forall r: nat ensures ExecAt(coin, x', es + [Toss(k)], r) {
      assert ExecAt(coin, x, es, r);
    }
  }

  // The decision a round awaits its coin with is one of the three.
  lemma AwaitedRange(coin: Coin, x: Node, es: Events, k: nat)
    requires AllExecs(coin, x, es) && RoundDid(x, es, k) && x.f < x.n && ExecOf(x, k).AwaitCoin?
    ensures 0 <= ExecOf(x, k).dec <= 2
  {
    assert ExecAt(coin, x, es, k);
    RoundLocal(x, es, k);
    OutputEvidence(Bca(x, k), ExecOf(x, k).dec);
  }

  ghost function NewDecider(x: Node, k: nat, c: int, decider: int): int
    requires ExecOf(x, k).AwaitCoin?
  {
    if ExecOf(x, k).dec == c && !x.hasDecided then k else decider
  }

  lemma StartsOnce(s: State, est: int, c: int)
    requires s.variant == External && IsBit(est) && IsBit(c) && s.proposals == []
    ensures Apply(s, Start(est, c)).proposals == [Proposal(est, c)]
  {
  }

  lemma TossOnward(x: Node, es: Events, decider: int, k: nat, c: int)
    requires AllOnward(x, decider) && Reaches(x, decider) && ExecOf(x, k).AwaitCoin? && IsBit(c) && 0 <= ExecOf(x, k).dec <= 2
    requires Bca(x, k + 1).variant == External
    ensures AllOnward(SubmitCoin(x, k, c), NewDecider(x, k, c, decider))
  {
    var x', dec, decider' := SubmitCoin(x, k, c), ExecOf(x, k).dec, NewDecider(x, k, c, decider);
    TossEffect(x, k, c);
    assert ProposedOnward(x, decider, k);
    if !(dec == c && !x.hasDecided) {
      StartsOnce(Bca(x, k + 1), if dec == 2 then c else dec, c);
    }
    forall r: nat ensures ProposedOnward(x', decider', r) {
      assert ProposedOnward(x, decider, r);
    }
  }

  lemma TossReaches(x: Node, decider: int, k: nat, c: int)
    requires Reaches(x, decider) && decider >= -1 && ExecOf(x, k).AwaitCoin? && IsBit(c)
    ensures Reaches(SubmitCoin(x, k, c), NewDecider(x, k, c, decider))
  {
    var x' := SubmitCoin(x, k, c);
    TossEffect(x, k, c);
    forall r: nat, v ensures DecidedIn(x', r, v) <==> if r == k then v == c == ExecOf(x, k).dec else DecidedIn(x, r, v) {
    }
    assert DecidedIn(x', k, c) <==> ExecOf(x, k).dec == c;
    if r: nat, v :| DecidedIn(x, r, v) {
      assert DecidedIn(x', r, v);
    }
  }

  lemma TossDid(coin: Coin, n: nat, f: nat, x: Node, es: Events, decider: int, k: nat)
    requires Did(coin, n, f, x, es, decider) && ExecOf(x, k).AwaitCoin? && IsBit(coin(k))
    ensures Did(coin, n, f, SubmitCoin(x, k, coin(k)), es + [Toss(k)], NewDecider(x, k, coin(k), decider))
  {
    var x' := SubmitCoin(x, k, coin(k));
    assert RoundDid(x, es, k) && RoundDid(x, es, k + 1);
    TossRoundsDid(coin, x, es, k);
    TossExecsDid(coin, x, es, k);
    AwaitedRange(coin, x, es, k);
    RoundLocal(x, es, k + 1);
    TossOnward(x, es, decider, k, coin(k));
    TossReaches(x, decider, k, coin(k));
    TossEffect(x, k, coin(k));
    NoReport(x.gadget, n, f, es, Toss(k));
    NoOutput(x, x', es, Toss(k));
  }

  // ---- reports and outputs

  lemma {:induction false} FirstReportRange(es: Events, q: Id)
    ensures FirstReport(es, q) == Silent || IsBit(FirstReport(es, q))
  {
    if es != [] {
      FirstReportRange(es[..|es| - 1], q);
    }
  }

  lemma ReportHeard(t: Gadget, n: nat, f: nat, es: Events, from: Id, d: int)
    requires GadgetDid(t, n, f, es)
    ensures GadgetDid(SubmitDecision(t, d, from), n, f, es + [Hear(from, d)])
  {
    Front(es, Hear(from, d));
    FirstReportRange(es, from);
    GadgetLevelKept(t, d, from);
  }

  lemma SameRoundsDid(coin: Coin, x: Node, x': Node, es: Events, decider: int, e: Event)
    requires AllRounds(x, es) && AllExecs(coin, x, es) && AllOnward(x, decider) && (e.Hear? || e.Output?)
    requires x'.n == x.n && x'.f == x.f && x'.rounds == x.rounds
    ensures AllRounds(x', es + [e]) && AllExecs(coin, x', es + [e]) && AllOnward(x', decider) && SameExecs(x, x')
  {
    AddressedBack(es, e);
    Front(es, e);
    forall r: nat ensures RoundDid(x', es + [e], r) && ExecAt(coin, x', es + [e], r) && ProposedOnward(x', decider, r) {
      assert RoundDid(x, es, r) && ExecAt(coin, x, es, r) && ProposedOnward(x, decider, r);
      RoundSame(x, x', es, e, r);
    }
  }

  lemma HearDid(coin: Coin, n: nat, f: nat, x: Node, es: Events, decider: int, from: Id, d: int)
    requires Did(coin, n, f, x, es, decider)
    ensures Did(coin, n, f, Report(x, d, from), es + [Hear(from, d)], decider)
  {
    var x' := Report(x, d, from);
    SameRoundsDid(coin, x, x', es, decider, Hear(from, d));
    SameReaches(x, x', decider);
    ReportHeard(x.gadget, n, f, es, from, d);
    NoOutput(x, x', es, Hear(from, d));
  }

  lemma OutputDid(coin: Coin, n: nat, f: nat, x: Node, es: Events, decider: int, adopted: bool)
    requires Did(coin, n, f, x, es, decider) && CanDeliver(x, adopted)
    ensures Did(coin, n, f, Deliver(x, adopted), es + [Output(adopted)], decider)
  {
    var x' := Deliver(x, adopted);
    SameRoundsDid(coin, x, x', es, decider, Output(adopted));
    SameReaches(x, x', decider);
    NoReport(x.gadget, n, f, es, Output(adopted));
    Front(es, Output(adopted));
    assert x.reached != [] ==> x.reached[..1] == [x.reached[0]];
    assert x.gadget.deliver != [] ==> x.gadget.deliver[..1] == [x.gadget.deliver[0]];
  }

  // ---- every life

  lemma EventDid(coin: Coin, n: nat, f: nat, x: Node, es: Events, decider: int, e: Event, x': Node) returns (decider': int)
    requires Did(coin, n, f, x, es, decider) && OneEvent(coin, x, e, x') && (forall r: nat :: IsBit(coin(r)))
    ensures Did(coin, n, f, x', es + [e], decider')
  {
    decider' := decider;
    AddressedBack(es, e);
    match e
    case Propose(est) => ActDid(coin, n, f, x, es, decider, e, 0, Start(est, Bot));
    case Receive(k, from, msg) => ActDid(coin, n, f, x, es, decider, e, k, Action.Receive(from, msg));
    case Work(k, job) => ActDid(coin, n, f, x, es, decider, e, k, Action.Run(job));
    case Read(k) => ReadDid(coin, n, f, x, es, decider, k);
    case Toss(k) =>
      TossDid(coin, n, f, x, es, decider, k);
      decider' := NewDecider(x, k, coin(k), decider);
    case Hear(from, d) => HearDid(coin, n, f, x, es, decider, from, d);
    case Output(adopted) => OutputDid(coin, n, f, x, es, decider, adopted);
  }

  lemma InitialDid(coin: Coin, n: nat, f: nat)
    requires f < n
    ensures Did(coin, n, f, InitialNode(n, f), [], -1)
  {
    var x := InitialNode(n, f);
    forall r: nat ensures RoundDid(x, [], r) && ExecAt(coin, x, [], r) && ProposedOnward(x, -1, r) {
      var s := Fresh(VariantOf(r), n, f);
      assert Go(s, [], s) && Unstarted([], r) == Addressed([], r);
    }
  }

  lemma {:induction false} LivesDid(coin: Coin, n: nat, f: nat, lives: seq<Node>, es: Events, k: nat) returns (decider: int)
    requires f < n && Lives(coin, n, f, lives, es) && (forall r: nat :: IsBit(coin(r))) && k <= |es|
    ensures Did(coin, n, f, lives[k], es[..k], decider)
  {
    if k == 0 {
      InitialDid(coin, n, f);
      decider := -1;
    } else {
      var j := k - 1;
      var before := LivesDid(coin, n, f, lives, es, j);
      assert OneEvent(coin, lives[j], es[j], lives[j + 1]);
      assert es[..j] + [es[j]] == es[..k];
      decider := EventDid(coin, n, f, lives[j], es[..j], before, es[j], lives[k]);
    }
  }

  /** In every run each correct node has lived some events, and is what they say. */
  lemma {:induction false} RunHistory(g: Group, coin: Coin, run: seq<Nodes>, i: nat, p: Id)
    returns (lives: seq<Node>, es: Events, decider: int)
    requires g.Valid() && (forall r: nat :: IsBit(coin(r))) && IsRun(g, coin, run) && i < |run| && p in run[i]
    ensures Lives(coin, g.n, g.f, lives, es) && lives[|es|] == run[i][p]
    ensures Did(coin, g.n, g.f, run[i][p], es, decider)
  {
    lives, es := RunLives(g, coin, run, i, p);
    decider := LivesDid(coin, g.n, g.f, lives, es, |es|);
    assert es[..|es|] == es;
  }

  lemma {:induction false} RunLives(g: Group, coin: Coin, run: seq<Nodes>, i: nat, p: Id) returns (lives: seq<Node>, es: Events)
    requires IsRun(g, coin, run) && i < |run| && p in run[i]
    ensures Lives(coin, g.n, g.f, lives, es) && lives[|es|] == run[i][p]
  {
    if i == 0 {
      lives, es := [InitialNode(g.n, g.f)], [];
    } else {
      var j := i - 1;
      assert Next(g, coin, run[j], run[j + 1]);
      var q, e :| Step(g, coin, run[j], q, e, run[i]);
      lives, es := RunLives(g, coin, run, j, p);
      if q == p {
        assert OneEvent(coin, run[j][p], e, run[i][p]);
        lives, es := Longer(coin, g.n, g.f, lives, es, e, run[i][p]);
      }
    }
  }

  lemma Longer(coin: Coin, n: nat, f: nat, lives: seq<Node>, es: Events, e: Event, x: Node) returns (lives': seq<Node>, es': Events)
    requires Lives(coin, n, f, lives, es) && OneEvent(coin, lives[|es|], e, x)
    ensures Lives(coin, n, f, lives', es') && es' == es + [e] && lives'[|es'|] == x
  {
    lives', es' := lives + [x], es + [e];
    forall i | 0 <= i < |es'| ensures OneEvent(coin, lives'[i], es'[i], lives'[i + 1]) {
      if i < |es| {
        assert OneEvent(coin, lives[i], es[i], lives[i + 1]);
      }
    }
  }

  /** What a node can do next, told from its events: a round can be read once, as soon as its crusader agreement
      has put out a decision, whatever the node has decided; closed once, after that; and the node can
      deliver one decision, reached or adopted, whichever is there. */
  lemma WaitsExactly(coin: Coin, n: nat, f: nat, x: Node, es: Events, decider: int, r: nat)
    requires Did(coin, n, f, x, es, decider)
    ensures CanRead(x, r) <==> Read(r) !in es && Bca(x, r).decide.output != []
    ensures ExecOf(x, r).AwaitCoin? <==> Read(r) in es && Toss(r) !in es
    ensures forall adopted :: CanDeliver(x, adopted) <==>
              Output(true) !in es && Output(false) !in es && (if adopted then x.gadget.deliver else x.reached) != []
  {
    assert ExecAt(coin, x, es, r);
  }

  /** At every point of every run, a correct node has reached a decision exactly when one of its rounds closed
      with its coin equal to its decision, and then it has reached that one, once. */
  lemma ReachedExactly(g: Group, coin: Coin, run: seq<Nodes>, i: nat, p: Id)
    requires g.Valid() && (forall r: nat :: IsBit(coin(r))) && IsRun(g, coin, run) && i < |run| && p in run[i]
    ensures var x := run[i][p];
            && (x.hasDecided <==> exists r: nat, v :: DecidedIn(x, r, v))
            && (forall r: nat, v :: DecidedIn(x, r, v) ==> x.reached == [v])
            && (!x.hasDecided ==> x.reached == [])
  {
    var x := run[i][p];
    var lives, es, decider := RunHistory(g, coin, run, i, p);
    RunInv(g, coin, run, i);
    forall r: nat, v | DecidedIn(x, r, v) ensures x.reached == [v] {
      OneReached(g, coin, run[i], p, decider, r, v);
    }
  }

  lemma OneReached(g: Group, coin: Coin, nodes: Nodes, p: Id, decider: int, r: nat, v: int)
    requires Inv(g, coin, nodes) && p in nodes && Reaches(nodes[p], decider) && DecidedIn(nodes[p], r, v)
    ensures nodes[p].reached == [v]
  {
    var w := ExecOf(nodes[p], decider).dec;
    RoundOutput(g, coin, nodes, p, decider);
    assert DecidedIn(nodes[p], decider, w);
    SameDecision(g, coin, nodes, v, w);
  }

  /** In every run, each later round of each correct node answers for its proposals: it marks an estimate that
      its coin contradicts, broadcasts the echo unless a shortcut marked it, and approves what it takes from
      the coin. */
  lemma LaterRoundsAnswer(g: Group, coin: Coin, run: seq<Nodes>, i: nat, p: Id, r: nat, v: int)
    requires g.Valid() && (forall r: nat :: IsBit(coin(r))) && IsRun(g, coin, run) && i < |run| && p in run[i]
    requires r > 0 && IsBit(v)
    ensures CrusaderHistory.LaterEchoes(Bca(run[i][p], r), v)
  {
    var lives, es, decider := RunHistory(g, coin, run, i, p);
    assert RoundDid(run[i][p], es, r);
    var acts :| Go(Fresh(VariantOf(r), g.n, g.f), acts, Bca(run[i][p], r)) && Unstarted(acts, r) == Addressed(es, r);
    CrusaderHistory.ProposalsAnswered(g.n, g.f, acts, v);
  }
}
