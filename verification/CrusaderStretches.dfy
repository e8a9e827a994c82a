/** Stretches of actions: sequences of actions one node can perform in order, how they compose, and how a
    group performs one node's stretch whose messages are all there from the start. */
module CrusaderStretches {
  import opened Quorums
  import opened CrusaderNode
  import opened CrusaderRuns

  // `actions` can be performed in this order from `s`.
  ghost predicate Runs(s: State, actions: seq<Action>)
    decreases |actions|
  {
    actions == [] || (Can(s, actions[0]) && Runs(Apply(s, actions[0]), actions[1..]))
  }

  ghost function After(s: State, actions: seq<Action>): State
    requires Runs(s, actions)
    decreases |actions|
  {
    if actions == [] then s else After(Apply(s, actions[0]), actions[1..])
  }

  lemma RunCons(s: State, a: Action, rest: seq<Action>)
    requires Can(s, a) && Runs(Apply(s, a), rest)
    ensures Runs(s, [a] + rest) && After(s, [a] + rest) == After(Apply(s, a), rest)
  {
    assert ([a] + rest)[1..] == rest;
  }

  lemma {:induction false} RunConcat(s: State, first: seq<Action>, rest: seq<Action>)
    requires Runs(s, first) && Runs(After(s, first), rest)
    ensures Runs(s, first + rest) && After(s, first + rest) == After(After(s, first), rest)
    decreases |first|
  {
    if first == [] {
      assert first + rest == rest;
    } else {
      RunConcat(Apply(s, first[0]), first[1..], rest);
      RunCons(s, first[0], first[1..] + rest);
      assert [first[0]] + (first[1..] + rest) == first + rest;
    }
  }

  lemma RunThree(s: State, a: Action, b: Action, c: Action, t: State, u: State, v: State)
    requires Can(s, a) && t == Apply(s, a) && Can(t, b) && u == Apply(t, b) && Can(u, c) && v == Apply(u, c)
    ensures Runs(s, [a, b, c]) && After(s, [a, b, c]) == v
  {
    assert Runs(v, []);
    RunCons(u, c, []);
    RunCons(t, b, [c]);
    RunCons(s, a, [b, c]);
    assert [c] + [] == [c] && [b] + [c] == [b, c] && [a] + [b, c] == [a, b, c];
  }

  lemma {:induction false} FrameAfter(s: State, actions: seq<Action>)
    requires Runs(s, actions)
    ensures var t := After(s, actions); t.variant == s.variant && t.n == s.n && t.f == s.f
    decreases |actions|
  {
    if actions != [] {
      ActionFrame(s, actions[0]);
      FrameAfter(Apply(s, actions[0]), actions[1..]);
    }
  }

  // ---- with the state they lead to

  ghost predicate Go(s: State, actions: seq<Action>, t: State) {
    Runs(s, actions) && After(s, actions) == t
  }

  lemma GoOne(s: State, a: Action, t: State)
    requires Can(s, a) && t == Apply(s, a)
    ensures Go(s, [a], t)
  {
    assert Runs(t, []);
    RunCons(s, a, []);
    assert [a] + [] == [a];
  }

  lemma GoOn(s: State, first: seq<Action>, t: State, a: Action, u: State)
    requires Go(s, first, t) && Can(t, a) && u == Apply(t, a)
    ensures Go(s, first + [a], u)
  {
    GoOne(t, a, u);
    RunConcat(s, first, [a]);
  }

  lemma {:induction false} GoGrows(s: State, actions: seq<Action>, t: State, m: Message)
    requires Go(s, actions, t) && Sent(s, m)
    ensures Sent(t, m)
    decreases |actions|
  {
    if actions != [] {
      SentGrows(s, actions[0], m);
      GoGrows(Apply(s, actions[0]), actions[1..], t, m);
    }
  }

  // ---- in a group

  lemma Extend(g: Group, variant: Variant, sys: System, p: Id, a: Action, sys': System)
    requires Reachable(g, variant, sys) && Step(g, sys, p, a, sys')
    ensures Reachable(g, variant, sys')
  {
    assert Next(g, sys, sys');
    LeadsOn(g, Initial(g, variant), sys, sys');
  }

  lemma {:induction false} Batch(g: Group, variant: Variant, sys: System, p: Id, actions: seq<Action>, t: State)
    requires Reachable(g, variant, sys) && p in sys && Go(sys[p], actions, t)
    requires forall i :: 0 <= i < |actions| ==> Authentic(g, sys, actions[i])
    ensures Reachable(g, variant, sys[p := t])
    decreases |actions|
  {
    if actions == [] {
      assert sys[p := t] == sys;
    } else {
      var a, rest := actions[0], actions[1..];
      var sys1 := sys[p := Apply(sys[p], a)];
      Extend(g, variant, sys, p, a, sys1);
      forall i | 0 <= i < |rest| ensures Authentic(g, sys1, rest[i]) {
        StillAuthentic(g, sys, p, a, sys1, actions[i + 1]);
      }
      Batch(g, variant, sys1, p, rest, t);
      assert sys1[p := t] == sys[p := t];
    }
  }

  lemma StillAuthentic(g: Group, sys: System, p: Id, a: Action, sys': System, b: Action)
    requires Step(g, sys, p, a, sys') && Authentic(g, sys, b)
    ensures Authentic(g, sys', b)
  {
    if b.Receive? {
      BackedKept(g, sys, p, a, sys', b.from, b.msg);
    }
  }

  // ---- stretches of messages

  function Echo(from: Id, v: int): Action {
    Receive(from, EchoMsg(v))
  }

  function Vote(from: Id, v: int): Action {
    Receive(from, VoteMsg(v))
  }

  function Bind(from: Id, v: int): Action {
    Receive(from, BindMsg(v))
  }

  // One more echo among four nodes, where no threshold, the first, or the second is met.
  lemma EchoCounted(variant: Variant, e: EchoStage, v: int, from: Id)
    requires EchoAccepted(e, v, from)
    ensures var e1 := e.(from := e.from.Put(v, e.from.At(v) + {from}));
            var size := |e.from.At(v)| + 1;
            CountEcho(variant, 4, 1, e, v, from) ==
            if size == 2 then EchoOnce(e1, v)
            else if size == 3 then Approve(if variant == Internal then e1.(extValid := e1.extValid + [v]) else e1, v)
            else e1
  {
    assert |e.from.At(v) + {from}| == |e.from.At(v)| + 1;
  }

  lemma GoEcho(s: State, first: seq<Action>, t: State, from: Id, v: int, e: EchoStage)
    requires Go(s, first, t) && t.n == 4 && t.f == 1 && EchoAccepted(t.echo, v, from)
    requires e == CountEcho(t.variant, 4, 1, t.echo, v, from)
    ensures Go(s, first + [Echo(from, v)], t.(echo := e))
  {
    GoOn(s, first, t, Echo(from, v), t.(echo := e));
  }

  // The first two echoes of a value make the node echo it, unless it has.
  lemma Amplified(s: State, v: int, i: Id, j: Id)
    requires s.n == 4 && s.f == 1 && IsBit(v) && s.echo.from.At(v) == {} && i != j
    ensures Go(s, [Echo(i, v), Echo(j, v)], s.(echo := EchoOnce(s.echo.(from := s.echo.from.Put(v, {i, j})), v)))
  {
    var e1 := s.echo.(from := s.echo.from.Put(v, {i}));
    EchoCounted(s.variant, s.echo, v, i);
    assert {} + {i} == {i};
    assert Runs(s, []) && Go(s, [], s);
    GoEcho(s, [], s, i, v, e1);
    EchoCounted(s.variant, e1, v, j);
    assert {i} + {j} == {i, j};
    var e2 := EchoOnce(s.echo.(from := s.echo.from.Put(v, {i, j})), v);
    GoEcho(s, [] + [Echo(i, v)], s.(echo := e1), j, v, e2);
    assert [] + [Echo(i, v)] + [Echo(j, v)] == [Echo(i, v), Echo(j, v)];
  }
}
