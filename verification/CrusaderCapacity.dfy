/** No send inside the first-round variant ever blocks: over every sequence of actions of one node,
    the number of items ever sent on each channel stays within the capacity it was made with. */
module CrusaderCapacity {
  import opened Quorums
  import opened CrusaderNode
  import opened CrusaderInvariants
  import opened CrusaderStretches
  import CrusaderRuns

  ghost predicate SentBy(actions: seq<Action>, senders: set<Id>) {
    forall i :: 0 <= i < |actions| && actions[i].Receive? ==> actions[i].from in senders
  }

  // The capacities of newBCA.
  ghost predicate WithinCapacity(s: State) {
    && |s.echo.bcast| <= 2 && |s.echo.extValid| <= 2 && |s.echo.approve.sent| <= 2
    && |s.vote.bcast| <= 1 && |s.vote.bindBot.sent| <= 1 && |s.vote.bindVal.sent| <= 1
    && |s.bind.bcast| <= 1 && |s.bind.termBot.sent| <= 2 && |s.bind.termVal.sent| <= 1
    && |s.decide.output| <= 1 && |s.decide.unblock.sent| <= 1
  }

  ghost predicate BindersIn(s: State, senders: set<Id>) {
    s.bind.from.zero + s.bind.from.one + s.bind.from.bot <= senders
  }

  lemma {:induction false} AfterInv(s: State, actions: seq<Action>, senders: set<Id>)
    requires LocalInv(s) && BindersIn(s, senders) && Runs(s, actions) && SentBy(actions, senders)
    ensures var t := After(s, actions);
            LocalInv(t) && BindersIn(t, senders) && t.variant == s.variant && t.n == s.n && t.f == s.f
    decreases |actions|
  {
    if actions != [] {
      var t := Apply(s, actions[0]);
      ApplyInv(s, actions[0]);
      OneAction(s, actions[0], senders);
      AfterInv(t, actions[1..], senders);
    }
  }

  lemma OneAction(s: State, a: Action, senders: set<Id>)
    requires Can(s, a) && BindersIn(s, senders) && (a.Receive? ==> a.from in senders)
    ensures var t := Apply(s, a); BindersIn(t, senders) && t.variant == s.variant && t.n == s.n && t.f == s.f
  {
    var t := Apply(s, a);
    CrusaderRuns.ActionFrame(s, a);
    forall q | q in t.bind.from.zero + t.bind.from.one + t.bind.from.bot ensures q in senders {
      var v := if q in t.bind.from.zero then 0 else if q in t.bind.from.one then 1 else Bot;
      assert Counted(t, q, BindMsg(v));
      CrusaderRuns.CountedOnly(s, a, q, BindMsg(v));
    }
  }

  lemma {:induction false} DistinctSize(q: seq<int>)
    requires Distinct(q)
    ensures |set v | v in q| == |q|
  {
    if q != [] {
      DistinctSize(q[1..]);
      assert (set v | v in q) == {q[0]} + (set v | v in q[1..]);
    }
  }

  lemma TwoBits(q: seq<int>)
    requires Bits(q) && Distinct(q)
    ensures |q| <= 2
  {
    DistinctSize(q);
    SubsetSize(set v | v in q, {0, 1});
  }

  // Two different outcomes cannot both collect a quorum of binds.
  lemma OneBindQuorum(s: State, senders: set<Id>)
    requires LocalInv(s) && BindersIn(s, senders) && |senders| <= s.n && s.n > 2 * s.f
    ensures |s.bind.termVal.sent| <= 1
  {
    var q, b := s.bind.termVal.sent, s.bind.from;
    if |q| > 1 {
      assert q[0] in q && q[1] in q && q[0] != q[1];
      assert b.At(q[0]) !! b.At(q[1]);
      assert |b.At(q[0]) + b.At(q[1])| == |b.At(q[0])| + |b.At(q[1])|;
      SubsetSize(b.At(q[0]) + b.At(q[1]), senders);
    }
  }

  // Whatever at most n distinct senders submit, and however the goroutines interleave.
  lemma SendsNeverBlock(n: nat, f: nat, actions: seq<Action>, senders: set<Id>)
    requires n > 2 * f && |senders| <= n
    requires Runs(Fresh(Internal, n, f), actions) && SentBy(actions, senders)
    ensures WithinCapacity(After(Fresh(Internal, n, f), actions))
  {
    var s := Fresh(Internal, n, f);
    FreshInv(Internal, n, f);
    AfterInv(s, actions, senders);
    var t := After(s, actions);
    OneBindQuorum(t, senders);
    TwoBits(t.echo.bcast);
    TwoBits(t.echo.approve.sent);
  }
}
