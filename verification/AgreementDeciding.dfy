/** The agreement can decide: in every group and for each value, if all correct nodes propose it and the first
    coin is that value, there is a run in which every correct node delivers it after its first round, and the
    termination gadget of every one then adopts the same decision and is notified. */
module AgreementDeciding {
  import opened Quorums
  import opened CrusaderNode
  import C = CrusaderRuns
  import CrusaderSettling
  import opened CrusaderStretches
  import opened CrusaderSafety
  import opened AgreementNode
  import opened AgreementRuns
  import opened AgreementDecisions
  import opened AgreementStretches

  // ---- a first round alone

  ghost function Quiet(g: Group): Gadget {
    Gadget(g.n, g.f, PerBit({}, {}), [], 0)
  }

  // A node whose first round is in state s.
  ghost function First(g: Group, s: State): Node {
    Node(g.n, g.f, map[0 := Round(s, AwaitDecision)], false, [], Quiet(g), [])
  }

  ghost function Embedded(g: Group, sys: C.System): Nodes {
    map p | p in sys :: First(g, sys[p])
  }

  lemma EmbeddedProjects(g: Group, sys: C.System)
    ensures Project(Embedded(g, sys), 0) == sys
  {
  }

  lemma PutFirst(g: Group, s: State, t: State)
    ensures Put(First(g, s), 0, t) == First(g, t) && Bca(First(g, s), 0) == s
  {
  }

  lemma EmbeddedUpdate(g: Group, sys: C.System, p: Id, t: State)
    requires p in sys
    ensures Embedded(g, sys[p := t]) == Embedded(g, sys)[p := First(g, t)]
  {
  }

  lemma LiftNext(g: Group, coin: Coin, sys: C.System, sys': C.System)
    requires Reached(g, coin, Embedded(g, sys)) && C.Next(g, sys, sys') && forall p :: p in sys ==> sys[p].variant == Internal
    ensures Reached(g, coin, Embedded(g, sys'))
  {
    var p, a :| C.Step(g, sys, p, a, sys');
    var nodes, t := Embedded(g, sys), Apply(sys[p], a);
    EmbeddedProjects(g, sys);
    PutFirst(g, sys[p], t);
    EmbeddedUpdate(g, sys, p, t);
    if Performable(0, a) {
      OneAction(g, coin, nodes, p, 0, a);
    } else {
      assert t == sys[p];
      assert sys' == sys;
    }
  }

  ghost predicate AllInternal(sys: C.System) {
    forall p :: p in sys ==> sys[p].variant == Internal
  }

  lemma {:induction false} LiftPath(g: Group, coin: Coin, path: seq<C.System>, i: nat)
    requires C.Path(g, path) && C.Inv(g, Internal, path[0]) && Reached(g, coin, Embedded(g, path[0])) && i < |path|
    ensures Reached(g, coin, Embedded(g, path[i]))
  {
    if i > 0 {
      var k := i - 1;
      LiftPath(g, coin, path, k);
      C.PathInv(g, Internal, path, k);
      PathInternal(g, path[k]);
      C.PathNext(g, path, k);
      LiftNext(g, coin, path[k], path[i]);
    }
  }

  lemma PathInternal(g: Group, sys: C.System)
    requires C.Inv(g, Internal, sys)
    ensures AllInternal(sys)
  {
    forall p | p in sys ensures sys[p].variant == Internal {
      assert C.NodeOk(g, Internal, sys[p]);
    }
  }

  // Every reachable first-round crusader agreement is the first round of a run.
  lemma LiftReachable(g: Group, coin: Coin, sys: C.System)
    requires g.Valid() && C.Reachable(g, Internal, sys)
    ensures Reached(g, coin, Embedded(g, sys))
  {
    var path :| C.Path(g, path) && path[0] == C.Initial(g, Internal) && path[|path| - 1] == sys;
    C.InitialInv(g, Internal);
    assert Embedded(g, path[0]) == Initial(g);
    assert IsRun(g, coin, [Initial(g)]) && [Initial(g)][0] == Initial(g);
    LiftPath(g, coin, path, |path| - 1);
  }

  // ---- every node decides and delivers

  ghost function Decided(g: Group, s: State, v: int): Node {
    Node(g.n, g.f, map[0 := Round(s, Finished(v, v))], true, [v], Quiet(g), [v])
  }

  // Its first round closed, nothing delivered yet.
  ghost function Closed(g: Group, s: State, v: int): Node {
    Decided(g, s, v).(delivered := [])
  }

  lemma OneDelivers(g: Group, coin: Coin, nodes: Nodes, p: Id, s: State, v: int)
    requires Reached(g, coin, nodes) && p in nodes && nodes[p] == First(g, s)
    requires s.decide.output == [v] && IsBit(v) && coin(0) == v
    ensures Reached(g, coin, nodes[p := Decided(g, s, v)])
  {
    OneCloses(g, coin, nodes, p, s, v);
    ReachedOn(g, coin, nodes[p := Closed(g, s, v)], p, Output(false), nodes[p := Closed(g, s, v)][p := Decided(g, s, v)]);
    UpdatedTwice(nodes, p, Closed(g, s, v), Decided(g, s, v));
  }

  lemma OneCloses(g: Group, coin: Coin, nodes: Nodes, p: Id, s: State, v: int)
    requires Reached(g, coin, nodes) && p in nodes && nodes[p] == First(g, s)
    requires s.decide.output == [v] && IsBit(v) && coin(0) == v
    ensures Reached(g, coin, nodes[p := Closed(g, s, v)])
  {
    var x := ReadDecision(First(g, s), 0);
    ReachedOn(g, coin, nodes, p, Read(0), nodes[p := x]);
    assert SubmitCoin(x, 0, v) == Closed(g, s, v);
    UpdatedTwice(nodes, p, x, Closed(g, s, v));
    ReachedOn(g, coin, nodes[p := x], p, Toss(0), nodes[p := x][p := Closed(g, s, v)]);
  }

  // The nodes in `done` have delivered, the others are at the end of their first round.
  ghost function Delivering(g: Group, sys: C.System, done: set<Id>, v: int): Nodes {
    map p | p in sys :: if p in done then Decided(g, sys[p], v) else First(g, sys[p])
  }

  lemma {:induction false} AllDeliver(g: Group, coin: Coin, sys: C.System, done: set<Id>, v: int)
    requires Reached(g, coin, Embedded(g, sys)) && IsBit(v) && coin(0) == v && done <= sys.Keys
    requires forall p :: p in sys ==> sys[p].decide.output == [v]
    ensures Reached(g, coin, Delivering(g, sys, done, v))
    decreases |done|
  {
    if done == {} {
      assert Delivering(g, sys, {}, v) == Embedded(g, sys);
    } else {
      var p :| p in done;
      var before := done - {p};
      AllDeliver(g, coin, sys, before, v);
      OneDelivers(g, coin, Delivering(g, sys, before, v), p, sys[p], v);
      assert Delivering(g, sys, done, v) == Delivering(g, sys, before, v)[p := Decided(g, sys[p], v)];
    }
  }

  // ---- and hears that the others have

  ghost function Heard(g: Group, s: State, v: int, from: set<Id>): Node {
    var reports: PerBit<set<Id>> := PerBit({}, {});
    Decided(g, s, v).(gadget := Gadget(g.n, g.f, reports.Put(v, from), if |from| > g.f then [v] else [], if |from| >= g.n - g.f then 1 else 0))
  }

  lemma OneMoreReport(g: Group, s: State, v: int, from: set<Id>, q: Id)
    requires IsBit(v) && q !in from && g.f < g.n
    ensures Report(Heard(g, s, v, from), v, q) == Heard(g, s, v, from + {q})
  {
    assert |from + {q}| == |from| + 1;
    assert [] + [v] == [v];
  }

  lemma {:induction false} Hears(g: Group, coin: Coin, nodes: Nodes, p: Id, s: State, v: int, from: set<Id>)
    requires g.Valid() && Reached(g, coin, nodes) && p in nodes && nodes[p] == Heard(g, s, v, {}) && IsBit(v)
    requires nodes.Keys == g.correct && from <= g.correct && forall q :: q in nodes ==> nodes[q].delivered == [v]
    ensures Reached(g, coin, nodes[p := Heard(g, s, v, from)])
    decreases |from|
  {
    if from == {} {
      assert nodes[p := nodes[p]] == nodes;
    } else {
      var q :| q in from;
      var before := from - {q};
      assert before + {q} == from;
      Hears(g, coin, nodes, p, s, v, before);
      UpdatedTwice(nodes, p, Heard(g, s, v, before), Heard(g, s, v, from));
      HearsOne(g, coin, nodes[p := Heard(g, s, v, before)], p, s, v, before, q);
    }
  }

  lemma UpdatedTwice(nodes: Nodes, p: Id, x: Node, y: Node)
    requires p in nodes
    ensures nodes[p := x][p := y] == nodes[p := y] && nodes[p := x].Keys == nodes.Keys
  {
  }

  lemma HearsOne(g: Group, coin: Coin, nodes: Nodes, p: Id, s: State, v: int, from: set<Id>, q: Id)
    requires g.f < g.n && Reached(g, coin, nodes) && p in nodes && nodes[p] == Heard(g, s, v, from) && IsBit(v)
    requires q in g.correct && q !in from && q in nodes && nodes[q].delivered == [v]
    ensures Reached(g, coin, nodes[p := Heard(g, s, v, from + {q})])
  {
    OneMoreReport(g, s, v, from, q);
    ReachedOn(g, coin, nodes, p, Hear(q, v), nodes[p := Heard(g, s, v, from + {q})]);
  }

  ghost function Hearing(g: Group, sys: C.System, done: set<Id>, v: int): Nodes {
    map p | p in sys :: if p in done then Heard(g, sys[p], v, g.correct) else Decided(g, sys[p], v)
  }

  lemma {:induction false} AllHear(g: Group, coin: Coin, sys: C.System, done: set<Id>, v: int)
    requires g.Valid() && sys.Keys == g.correct && Reached(g, coin, Delivering(g, sys, g.correct, v)) && IsBit(v) && done <= sys.Keys
    ensures Reached(g, coin, Hearing(g, sys, done, v))
    decreases |done|
  {
    if done == {} {
      assert Hearing(g, sys, {}, v) == Delivering(g, sys, g.correct, v);
    } else {
      var p :| p in done;
      var before := done - {p};
      AllHear(g, coin, sys, before, v);
      OneHears(g, coin, sys, before, p, v);
      HearingMore(g, sys, before, p, v);
      assert before + {p} == done;
    }
  }

  lemma OneHears(g: Group, coin: Coin, sys: C.System, done: set<Id>, p: Id, v: int)
    requires g.Valid() && sys.Keys == g.correct && Reached(g, coin, Hearing(g, sys, done, v)) && IsBit(v) && p in sys && p !in done
    ensures Reached(g, coin, Hearing(g, sys, done, v)[p := Heard(g, sys[p], v, g.correct)])
  {
    NothingHeard(g, sys[p], v);
    HearingSoFar(g, sys, done, v);
    Hears(g, coin, Hearing(g, sys, done, v), p, sys[p], v, g.correct);
  }

  lemma HearingMore(g: Group, sys: C.System, done: set<Id>, p: Id, v: int)
    requires p in sys
    ensures Hearing(g, sys, done + {p}, v) == Hearing(g, sys, done, v)[p := Heard(g, sys[p], v, g.correct)]
  {
  }

  lemma HearingSoFar(g: Group, sys: C.System, done: set<Id>, v: int)
    ensures var nodes := Hearing(g, sys, done, v);
            && nodes.Keys == sys.Keys && (forall q :: q in nodes ==> nodes[q].delivered == [v])
            && forall q :: q in nodes && q !in done ==> nodes[q] == Decided(g, sys[q], v)
  {
  }

  lemma NothingHeard(g: Group, s: State, v: int)
    requires g.Valid() && IsBit(v)
    ensures Heard(g, s, v, {}) == Decided(g, s, v)
  {
  }

  /** In every group, for each value v and every coin that is v in the first round, a run reaches a state in
      which all correct nodes proposed v, all have delivered v, and every gadget has adopted v and notified
      termination, once. */
  lemma CanDecide(g: Group, coin: Coin, v: int) returns (nodes: Nodes)
    requires g.Valid() && IsBit(v) && coin(0) == v
    ensures Reached(g, coin, nodes) && nodes.Keys == g.correct && AllEstimate(Project(nodes, 0), v)
    ensures forall p :: p in nodes ==>
              && nodes[p].delivered == [v] && nodes[p].reached == [v]
              && nodes[p].gadget.deliver == [v] && nodes[p].gadget.notified == 1
  {
    var sys := CrusaderSettling.UnanimousGroupCanDecide(g, v);
    LiftReachable(g, coin, sys);
    AllDeliver(g, coin, sys, g.correct, v);
    AllHear(g, coin, sys, g.correct, v);
    nodes := Hearing(g, sys, g.correct, v);
    HearingAll(g, sys, v);
  }

  lemma HearingAll(g: Group, sys: C.System, v: int)
    requires g.Valid() && IsBit(v) && sys.Keys == g.correct
    ensures var nodes := Hearing(g, sys, g.correct, v);
            && Project(nodes, 0) == sys && nodes.Keys == g.correct
            && forall p :: p in nodes ==>
                 && nodes[p].delivered == [v] && nodes[p].reached == [v]
                 && nodes[p].gadget.deliver == [v] && nodes[p].gadget.notified == 1
  {
    var nodes := Hearing(g, sys, g.correct, v);
    CorrectQuorum(g);
    forall p | p in nodes ensures Bca(nodes[p], 0) == sys[p] && EndedWith(nodes[p], v) {
      HeardEnough(g, sys[p], v);
    }
    assert forall p :: p in nodes ==> EndedWith(nodes[p], v);
  }

  ghost predicate EndedWith(x: Node, v: int) {
    x.delivered == [v] && x.reached == [v] && x.gadget.deliver == [v] && x.gadget.notified == 1
  }

  lemma HeardEnough(g: Group, s: State, v: int)
    requires |g.correct| >= g.n - g.f > g.f
    ensures var x := Heard(g, s, v, g.correct); Bca(x, 0) == s && EndedWith(x, v)
  {
  }
}
