/** One node of the binary agreement: a chain of crusader rounds, each closed by a common coin, and
    the termination gadget that adopts a decision reported by f + 1 peers. */
module AgreementNode {
  import opened Quorums
  import opened CrusaderNode

  // ---- one round

  // What execRound hands back once the coin is known.
  datatype Transition = Transition(estimate: int, decided: bool)

  function RoundResult(dec: int, coin: int): Transition {
    if dec == Bot then Transition(coin, false) else Transition(dec, coin == dec)
  }

  // Program counter of execRound.
  datatype Exec = AwaitDecision | AwaitCoin(dec: int) | Finished(dec: int, coin: int)

  datatype Round = Round(bca: State, exec: Exec)

  function VariantOf(r: nat): Variant {
    if r == 0 then Internal else External
  }

  function FreshRound(n: nat, f: nat, r: nat): Round {
    Round(Fresh(VariantOf(r), n, f), AwaitDecision)
  }

  // ---- termination gadget

  datatype Gadget = Gadget(n: nat, f: nat, reports: PerBit<set<Id>>, deliver: seq<int>, notified: nat)

  predicate ReportAccepted(t: Gadget, d: int, from: Id) {
    IsBit(d) && from !in t.reports.zero && from !in t.reports.one
  }

  function SubmitDecision(t: Gadget, d: int, from: Id): Gadget {
    if !ReportAccepted(t, d, from) then t
    else
      var t1 := t.(reports := t.reports.Put(d, t.reports.At(d) + {from}));
      var t2 := if |t1.reports.At(d)| == t.f + 1 then t1.(deliver := t1.deliver + [d]) else t1;
      if |t2.reports.zero| + |t2.reports.one| == t.n - t.f then t2.(notified := t2.notified + 1) else t2
  }

  // ---- the node

  datatype Node = Node(
    n: nat,
    f: nat,
    rounds: map<nat, Round>,
    hasDecided: bool,
    reached: seq<int>,     // reachedDecision
    gadget: Gadget,
    delivered: seq<int>)   // deliverDecision

  function InitialNode(n: nat, f: nat): Node {
    Node(n, f, map[0 := FreshRound(n, f, 0)], false, [], Gadget(n, f, PerBit({}, {}), [], 0), [])
  }

  // getRound: a round comes into being the first time it is named.
  function RoundOf(x: Node, r: nat): Round {
    if r in x.rounds then x.rounds[r] else FreshRound(x.n, x.f, r)
  }

  function WithRound(x: Node, r: nat, round: Round): Node {
    x.(rounds := x.rounds[r := round])
  }

  function Act(x: Node, r: nat, a: Action): Node
    requires Can(RoundOf(x, r).bca, a)
  {
    var round := RoundOf(x, r);
    WithRound(x, r, round.(bca := Apply(round.bca, a)))
  }

  // execRound takes the decision of its crusader agreement and asks for the coin.
  predicate CanRead(x: Node, r: nat) {
    RoundOf(x, r).exec.AwaitDecision? && RoundOf(x, r).bca.decide.output != []
  }

  function ReadDecision(x: Node, r: nat): Node
    requires CanRead(x, r)
  {
    var round := RoundOf(x, r);
    WithRound(x, r, round.(exec := AwaitCoin(round.bca.decide.output[0])))
  }

  // submitCoin: decide, unless a decision was already reached, or propose to the next round.
  function SubmitCoin(x: Node, r: nat, coin: int): Node
    requires RoundOf(x, r).exec.AwaitCoin?
  {
    var round := RoundOf(x, r);
    var dec := round.exec.dec;
    var res := RoundResult(dec, coin);
    if !IsBit(coin) then x
    else
      var y := WithRound(x, r, round.(exec := Finished(dec, coin)));
      if res.decided && !x.hasDecided
      then y.(hasDecided := true, reached := y.reached + [res.estimate])
      else Act(y, r + 1, Start(res.estimate, coin))
  }

  function Report(x: Node, d: int, from: Id): Node {
    x.(gadget := SubmitDecision(x.gadget, d, from))
  }

  // reachDecision takes whichever decision is there, once.
  predicate CanDeliver(x: Node, adopted: bool) {
    x.delivered == [] && (if adopted then x.gadget.deliver != [] else x.reached != [])
  }

  function Deliver(x: Node, adopted: bool): Node
    requires CanDeliver(x, adopted)
  {
    x.(delivered := [if adopted then x.gadget.deliver[0] else x.reached[0]])
  }
}
