/** The ends of the binary agreement: the termination gadget against its threshold specification, and the
    four channels that carry a decision, none of which is ever sent more than it has room for. */
module AgreementDecisions {
  import opened Quorums
  import opened CrusaderNode
  import opened CrusaderInvariants
  import opened AgreementNode
  import opened AgreementRuns

  // ---- the gadget: edge triggers refine level triggers

  datatype DecisionReport = DecisionReport(decision: int, from: Id)

  function Heard(n: nat, f: nat, reports: seq<DecisionReport>): Gadget {
    if reports == [] then Gadget(n, f, PerBit({}, {}), [], 0)
    else
      var k := |reports| - 1;
      SubmitDecision(Heard(n, f, reports[..k]), reports[k].decision, reports[k].from)
  }

  // Delivered what f + 1 senders report, notified once n - f have reported.
  ghost predicate GadgetLevel(t: Gadget) {
    && t.f < t.n && t.reports.zero !! t.reports.one
    && DeliverLevel(t.f, |t.reports.zero|, |t.reports.one|, t.deliver)
    && t.notified == if |t.reports.zero| + |t.reports.one| >= t.n - t.f then 1 else 0
  }

  ghost predicate DeliverLevel(f: nat, zeros: nat, ones: nat, deliver: seq<int>) {
    Bits(deliver) && Distinct(deliver) && (0 in deliver <==> zeros > f) && (1 in deliver <==> ones > f)
  }

  lemma Grown(q: seq<int>, v: int)
    requires Bits(q) && Distinct(q) && IsBit(v) && v !in q
    ensures Bits(q + [v]) && Distinct(q + [v])
  {
  }

  lemma DeliverLevelKept(f: nat, zeros: nat, ones: nat, deliver: seq<int>, d: int)
    requires DeliverLevel(f, zeros, ones, deliver) && IsBit(d)
    ensures d == 0 ==> DeliverLevel(f, zeros + 1, ones, if zeros == f then deliver + [0] else deliver)
    ensures d == 1 ==> DeliverLevel(f, zeros, ones + 1, if ones == f then deliver + [1] else deliver)
  {
    if d !in deliver {
      Grown(deliver, d);
    }
  }

  lemma GadgetLevelKept(t: Gadget, d: int, from: Id)
    requires GadgetLevel(t)
    ensures GadgetLevel(SubmitDecision(t, d, from))
  {
    if ReportAccepted(t, d, from) {
      Counted(t.reports, d, from);
      DeliverLevelKept(t.f, |t.reports.zero|, |t.reports.one|, t.deliver, d);
    }
  }

  lemma Counted(reports: PerBit<set<Id>>, d: int, from: Id)
    requires IsBit(d) && reports.zero !! reports.one && from !in reports.zero && from !in reports.one
    ensures var after := reports.Put(d, reports.At(d) + {from});
            && after.zero !! after.one
            && |after.zero| == |reports.zero| + (if d == 0 then 1 else 0)
            && |after.one| == |reports.one| + (if d == 1 then 1 else 0)
  {
  }

  // The first binary decision q reported, -1 if there is none.
  function FirstDecision(reports: seq<DecisionReport>, q: Id): int {
    if reports == [] then -1
    else
      var last, before := reports[|reports| - 1], FirstDecision(reports[..|reports| - 1], q);
      if before != -1 then before
      else if last.from == q && (last.decision == 0 || last.decision == 1) then last.decision
      else -1
  }

  lemma OneReport(t: Gadget, d: int, from: Id, q: Id)
    requires t.reports.zero !! t.reports.one
    ensures var t' := SubmitDecision(t, d, from);
            var repeated := from in t.reports.zero || from in t.reports.one;
            && t'.n == t.n && t'.f == t.f
            && (q in t'.reports.zero <==> q in t.reports.zero || (q == from && d == 0 && !repeated))
            && (q in t'.reports.one <==> q in t.reports.one || (q == from && d == 1 && !repeated))
  {
  }

  /** After any reports: each sender counts for the first binary decision it reported, and only for that; a
      decision is delivered if and only if f + 1 senders count for it, each decision at most once, and
      termination is notified once if and only if n - f senders count. */
  lemma {:induction false} GadgetExactly(n: nat, f: nat, reports: seq<DecisionReport>)
    requires f < n
    ensures var t := Heard(n, f, reports);
            && t.n == n && t.f == f && GadgetLevel(t)
            && (forall q :: q in t.reports.zero <==> FirstDecision(reports, q) == 0)
            && (forall q :: q in t.reports.one <==> FirstDecision(reports, q) == 1)
  {
    if reports != [] {
      var k := |reports| - 1;
      var t := Heard(n, f, reports[..k]);
      GadgetExactly(n, f, reports[..k]);
      GadgetLevelKept(t, reports[k].decision, reports[k].from);
      forall q
        ensures var t' := Heard(n, f, reports);
                && (q in t'.reports.zero <==> FirstDecision(reports, q) == 0)
                && (q in t'.reports.one <==> FirstDecision(reports, q) == 1)
      {
        OneReport(t, reports[k].decision, reports[k].from, q);
        FirstDecisionRange(reports[..k], q);
        FirstDecisionRange(reports[..k], reports[k].from);
      }
    }
  }

  lemma {:induction false} FirstDecisionRange(reports: seq<DecisionReport>, q: Id)
    ensures FirstDecision(reports, q) == -1 || IsBit(FirstDecision(reports, q))
  {
    if reports != [] {
      FirstDecisionRange(reports[..|reports| - 1], q);
    }
  }

  // ---- the node

  ghost predicate DecisionsLevel(x: Node) {
    && GadgetLevel(x.gadget)
    && |x.reached| == (if x.hasDecided then 1 else 0)
    && |x.delivered| <= 1
  }

  lemma DecisionsKept(g: Group, coin: Coin, nodes: Nodes, p: Id, e: Event)
    requires p in nodes && Allowed(g, nodes, p, e) && DecisionsLevel(nodes[p])
    ensures DecisionsLevel(Perform(coin, g, nodes, p, e))
  {
    if e.Hear? {
      GadgetLevelKept(nodes[p].gadget, e.d, e.from);
    }
  }

  ghost predicate AllLevel(nodes: Nodes) {
    forall p :: p in nodes ==> DecisionsLevel(nodes[p])
  }

  lemma NextLevel(g: Group, coin: Coin, nodes: Nodes, nodes': Nodes)
    requires AllLevel(nodes) && Next(g, coin, nodes, nodes')
    ensures AllLevel(nodes')
  {
    var p, e :| Step(g, coin, nodes, p, e, nodes');
    DecisionsKept(g, coin, nodes, p, e);
  }

  lemma {:induction false} RunLevel(g: Group, coin: Coin, run: seq<Nodes>, i: nat)
    requires g.Valid() && IsRun(g, coin, run) && i < |run|
    ensures AllLevel(run[i])
  {
    if i > 0 {
      var j := i - 1;
      RunLevel(g, coin, run, j);
      assert Next(g, coin, run[j], run[j + 1]);
      NextLevel(g, coin, run[j], run[j + 1]);
    }
  }

  // An adopted decision is one that some node reached in a round.
  lemma AdoptedReached(g: Group, coin: Coin, nodes: Nodes, p: Id, v: int)
    requires Inv(g, coin, nodes) && p in nodes && v in nodes[p].gadget.deliver
    ensures RoundDecided(nodes, v)
  {
    assert NodeOk(g, coin, nodes, nodes[p]);
    var q := Adopted(g, nodes, nodes[p].gadget, v);
    assert NodeOk(g, coin, nodes, nodes[q]);
  }

  lemma OneAdoption(g: Group, coin: Coin, nodes: Nodes, p: Id)
    requires Inv(g, coin, nodes) && p in nodes && GadgetLevel(nodes[p].gadget)
    ensures |nodes[p].gadget.deliver| <= 1
  {
    var q := nodes[p].gadget.deliver;
    if |q| > 1 {
      AdoptedReached(g, coin, nodes, p, q[0]);
      AdoptedReached(g, coin, nodes, p, q[1]);
      SameDecision(g, coin, nodes, q[0], q[1]);
    }
  }

  /** In every run, each of the channels that carry a decision is sent at most the one item it has room for,
      so no send of a decision blocks, and the gadget never delivers two decisions. */
  lemma DecisionSendsNeverBlock(g: Group, coin: Coin, run: seq<Nodes>, i: nat, p: Id)
    requires g.Valid() && (forall r: nat :: IsBit(coin(r))) && IsRun(g, coin, run) && i < |run| && p in run[i]
    ensures var x := run[i][p];
            |x.reached| <= 1 && |x.gadget.deliver| <= 1 && x.gadget.notified <= 1 && |x.delivered| <= 1
  {
    RunInv(g, coin, run, i);
    RunLevel(g, coin, run, i);
    assert DecisionsLevel(run[i][p]);
    OneAdoption(g, coin, run[i], p);
  }
}
