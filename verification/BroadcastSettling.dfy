/** Settled states of a broadcast are there to be reached: whatever has happened, delivering what correct
    nodes have sent leads to one. So from every state of every run, a broadcast whose owner is correct can be
    delivered by all correct nodes, and so can one that any correct node has delivered. */
module BroadcastSettling {
  import opened Quorums
  import opened BroadcastNode
  import opened BroadcastRuns

  // ---- what has been heard, which only grows, and is bounded

  datatype Fact = EchoOf(p: Uuid, q: Uuid) | ReadyOf(p: Uuid, q: Uuid)

  ghost function Everything(nodes: set<Uuid>): set<Fact> {
    (set p, q | p in nodes && q in nodes :: EchoOf(p, q)) + (set p, q | p in nodes && q in nodes :: ReadyOf(p, q))
  }

  ghost function Heard(sys: System): set<Fact> {
    (set p, q | p in sys.Keys && q in sys.Keys && q in sys[p].echoFrom :: EchoOf(p, q))
    + (set p, q | p in sys.Keys && q in sys.Keys && q in sys[p].readyFrom :: ReadyOf(p, q))
  }

  lemma HeardBounded(sys: System)
    ensures Heard(sys) <= Everything(sys.Keys)
  {
  }

  // Every node has sent, received in sends and delivered at least what it had.
  ghost predicate Further(sys: System, sys': System) {
    sys'.Keys == sys.Keys && forall p :: p in sys ==> NodeFurther(sys[p], sys'[p])
  }

  ghost predicate NodeFurther(s: State, t: State) {
    s.sends <= t.sends && s.delivered <= t.delivered
  }

  lemma DeliveredGrows(s: State, from: Uuid, msg: Message)
    ensures s.delivered <= Handle(s, from, msg).delivered
  {
  }

  lemma StepFurther(g: Peers, inst: Instance, sys: System, p: Uuid, from: Uuid, msg: Message, sys': System)
    requires Step(g, inst, sys, p, from, msg, sys')
    ensures Further(sys, sys') && Heard(sys) <= Heard(sys')
  {
    HandleGrows(sys[p], from, msg);
    DeliveredGrows(sys[p], from, msg);
  }

  lemma FurtherTrans(a: System, b: System, c: System)
    requires Further(a, b) && Further(b, c)
    ensures Further(a, c)
  {
    forall p | p in a ensures NodeFurther(a[p], c[p]) {
      assert NodeFurther(a[p], b[p]) && NodeFurther(b[p], c[p]);
    }
  }

  lemma Extend(g: Peers, inst: Instance, sys: System, p: Uuid, from: Uuid, msg: Message, sys': System)
    requires Reachable(g, inst, sys) && Step(g, inst, sys, p, from, msg, sys')
    ensures Reachable(g, inst, sys')
  {
    var run :| IsRun(g, inst, run) && sys == run[|run| - 1];
    var run' := run + [sys'];
    forall i | 0 <= i < |run'| - 1 ensures Next(g, inst, run'[i], run'[i + 1]) {
      if i < |run| - 1 {
        assert Next(g, inst, run[i], run[i + 1]);
      } else {
        assert Next(g, inst, sys, sys');
      }
    }
    assert IsRun(g, inst, run') && sys' == run'[|run'| - 1];
  }

  // ---- one useful step

  ghost predicate Useful(g: Peers, inst: Instance, sys: System, sys': System) {
    Reachable(g, inst, sys') && Further(sys, sys') && Heard(sys) < Heard(sys')
  }

  lemma EchoIn(sys: System, p: Uuid, q: Uuid)
    ensures EchoOf(p, q) in Heard(sys) <==> p in sys && q in sys && q in sys[p].echoFrom
  {
  }

  lemma ReadyIn(sys: System, p: Uuid, q: Uuid)
    ensures ReadyOf(p, q) in Heard(sys) <==> p in sys && q in sys && q in sys[p].readyFrom
  {
  }

  // A correct node's echo, or ready, is one message: counted at all, it is counted for that.
  lemma EchoCounted(g: Peers, inst: Instance, sys: System, p: Uuid, q: Uuid, m: Bytes)
    requires g.Valid() && Reachable(g, inst, sys) && p in sys && q in sys && m in sys[q].echoOut && q in sys[p].echoFrom
    ensures q in From(sys[p].echoFrom, m)
  {
    ReachableGood(g, inst, sys);
    assert SysOk(g, inst, sys, sys[p]) && NodeOk(g, sys[q]);
    OneEcho(sys[q], m, sys[p].echoFrom[q]);
  }

  lemma ReadyCounted(g: Peers, inst: Instance, sys: System, p: Uuid, q: Uuid, m: Bytes)
    requires g.Valid() && Reachable(g, inst, sys) && p in sys && q in sys && m in sys[q].readyOut && q in sys[p].readyFrom
    ensures q in From(sys[p].readyFrom, m)
  {
    ReachableGood(g, inst, sys);
    assert SysOk(g, inst, sys, sys[p]) && NodeOk(g, sys[q]);
    OneReady(sys[q], m, sys[p].readyFrom[q]);
  }

  lemma OneReady(s: State, a: Bytes, b: Bytes)
    requires Inv(s) && a in s.readyOut && b in s.readyOut
    ensures a == b
  {
  }

  lemma IsUseful(g: Peers, inst: Instance, sys: System, p: Uuid, from: Uuid, msg: Message, sys': System, x: Fact)
    requires Reachable(g, inst, sys) && Step(g, inst, sys, p, from, msg, sys')
    requires x in Heard(sys') && x !in Heard(sys)
    ensures Useful(g, inst, sys, sys')
  {
    Extend(g, inst, sys, p, from, msg, sys');
    StepFurther(g, inst, sys, p, from, msg, sys');
  }

  lemma OwnMessage(g: Peers, inst: Instance, sys: System, q: Uuid, msg: Message)
    requires g.Valid() && Reachable(g, inst, sys) && q in sys
    requires (msg.Echo? && msg.m in sys[q].echoOut) || (msg.Ready? && msg.m in sys[q].readyOut)
    ensures Backed(g, inst, sys, q, msg)
  {
    ReachableGood(g, inst, sys);
    assert q in g.correct;
  }

  lemma EchoArrives(g: Peers, inst: Instance, sys: System, p: Uuid, q: Uuid, m: Bytes) returns (sys': System)
    requires Reachable(g, inst, sys) && p in sys && q in sys && Backed(g, inst, sys, q, Echo(m)) && q !in sys[p].echoFrom
    ensures Useful(g, inst, sys, sys')
  {
    sys' := sys[p := Handle(sys[p], q, Echo(m))];
    HandleGrows(sys[p], q, Echo(m));
    EchoIn(sys, p, q);
    EchoIn(sys', p, q);
    IsUseful(g, inst, sys, p, q, Echo(m), sys', EchoOf(p, q));
  }

  lemma ReadyArrives(g: Peers, inst: Instance, sys: System, p: Uuid, q: Uuid, m: Bytes) returns (sys': System)
    requires Reachable(g, inst, sys) && p in sys && q in sys && Backed(g, inst, sys, q, Ready(m)) && q !in sys[p].readyFrom
    ensures Useful(g, inst, sys, sys')
  {
    sys' := sys[p := Handle(sys[p], q, Ready(m))];
    HandleGrows(sys[p], q, Ready(m));
    ReadyIn(sys, p, q);
    ReadyIn(sys', p, q);
    IsUseful(g, inst, sys, p, q, Ready(m), sys', ReadyOf(p, q));
  }

  // Unless it is settled, there is a useful step.
  lemma Unsettled(g: Peers, inst: Instance, sys: System) returns (sys': System)
    requires g.Valid() && Reachable(g, inst, sys) && !Settled(sys)
    ensures Useful(g, inst, sys, sys')
  {
    ReachableGood(g, inst, sys);
    if p, q, m :| p in sys && q in sys && m in sys[q].echoOut && q !in From(sys[p].echoFrom, m) {
      OwnMessage(g, inst, sys, q, Echo(m));
      if q in sys[p].echoFrom { EchoCounted(g, inst, sys, p, q, m); }
      sys' := EchoArrives(g, inst, sys, p, q, m);
    } else {
      var p, q, m :| p in sys && q in sys && m in sys[q].readyOut && q !in From(sys[p].readyFrom, m);
      OwnMessage(g, inst, sys, q, Ready(m));
      if q in sys[p].readyFrom { ReadyCounted(g, inst, sys, p, q, m); }
      sys' := ReadyArrives(g, inst, sys, p, q, m);
    }
  }

  lemma Fewer(sys: System, sys': System)
    requires sys'.Keys == sys.Keys && Heard(sys) < Heard(sys')
    ensures |Heard(sys)| < |Heard(sys')| <= |Everything(sys.Keys)|
  {
    HeardBounded(sys');
    Between(Heard(sys), Heard(sys'), Everything(sys.Keys));
  }

  /** From every reachable state, delivering what correct nodes have sent leads to a settled one. */
  lemma {:induction false} CanSettle(g: Peers, inst: Instance, sys: System) returns (end: System)
    requires g.Valid() && Reachable(g, inst, sys)
    ensures Reachable(g, inst, end) && Settled(end) && Further(sys, end)
    decreases |Everything(sys.Keys)| - |Heard(sys)|
  {
    if Settled(sys) {
      end := sys;
    } else {
      var sys' := Unsettled(g, inst, sys);
      Fewer(sys, sys');
      end := CanSettle(g, inst, sys');
      FurtherTrans(sys, sys', end);
    }
  }

  // ---- what can always be delivered

  lemma {:induction false} SendReaches(g: Peers, inst: Instance, sys: System, nodes: set<Uuid>) returns (end: System)
    requires g.Valid() && Reachable(g, inst, sys) && inst.owner in g.correct && nodes <= sys.Keys
    ensures Reachable(g, inst, end) && Further(sys, end) && forall p :: p in nodes ==> p in end && end[p].sends != []
    decreases |nodes|
  {
    if nodes == {} {
      end := sys;
    } else {
      var p :| p in nodes;
      var before := SendReaches(g, inst, sys, nodes - {p});
      end := before[p := Handle(before[p], inst.owner, Send(inst.content))];
      assert Step(g, inst, before, p, inst.owner, Send(inst.content), end);
      Extend(g, inst, before, p, inst.owner, Send(inst.content), end);
      StepFurther(g, inst, before, p, inst.owner, Send(inst.content), end);
      FurtherTrans(sys, before, end);
      HandleGrows(before[p], inst.owner, Send(inst.content));
    }
  }

  /** If the owner is correct, every state of every run leads on to one in which all correct nodes have
      delivered its content in its name, once. */
  lemma OwnerCanDeliver(g: Peers, inst: Instance, sys: System) returns (end: System)
    requires g.Valid() && Reachable(g, inst, sys) && inst.owner in g.correct
    ensures Reachable(g, inst, end) && Further(sys, end) && Settled(end)
    ensures forall p :: p in end ==> end[p].output == [Delivery(inst.owner, inst.content)]
  {
    var sent := SendReaches(g, inst, sys, sys.Keys);
    end := CanSettle(g, inst, sent);
    FurtherTrans(sys, sent, end);
    forall p | p in end ensures end[p].sends != [] {
      assert NodeFurther(sent[p], end[p]);
    }
    BroadcastValidity(g, inst, end);
  }

  /** Whoever owns the instance: once one correct node has delivered m, the run leads on to a state in which
      all have delivered exactly m. */
  lemma DeliveredSpreads(g: Peers, inst: Instance, sys: System, p: Uuid, m: Bytes) returns (end: System)
    requires g.Valid() && Reachable(g, inst, sys) && p in sys && m in sys[p].delivered
    ensures Reachable(g, inst, end) && Further(sys, end) && Settled(end)
    ensures forall q :: q in end ==> end[q].delivered == [m]
  {
    end := CanSettle(g, inst, sys);
    assert NodeFurther(sys[p], end[p]);
    BroadcastTotality(g, inst, end, p, m);
  }
}
