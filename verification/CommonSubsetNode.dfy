/** One node of the BKR common subset, as a state machine: one acceptor per proposer, which feeds a
    binary agreement, and the loop that collects their responses and rejects the rest once n - f
    proposals are accepted. A participant is named by its position in the list of participants. */
module CommonSubsetNode {

  datatype Option<T> = None | Some(value: T)

  type Bytes = seq<int>

  const Accept := 1
  const Reject := 0

  // ---- proposalAcceptor

  datatype Acceptor = Acceptor(
    input: Option<Bytes>,
    inputChan: seq<Bytes>,  // pending inputs
    proposed: bool,
    proposals: seq<int>,    // what was proposed to the binary agreement
    answered: bool)         // waitResponse is over

  function FreshAcceptor(): Acceptor {
    Acceptor(None, [], false, [], false)
  }

  function ProposeOnce(a: Acceptor, v: int): Acceptor {
    if a.proposed then a else a.(proposed := true, proposals := a.proposals + [v])
  }

  function SubmitInput(a: Acceptor, x: Bytes): Acceptor {
    if a.input.Some? then a
    else ProposeOnce(a.(input := Some(x), inputChan := a.inputChan + [x]), Accept)
  }

  function RejectProposal(a: Acceptor): Acceptor {
    if a.input.Some? then a else ProposeOnce(a, Reject)
  }

  // waitResponse: an accepted proposal waits for the input, a rejected one does not.
  predicate CanRespond(a: Acceptor, decision: int) {
    !a.answered && (decision == Accept ==> a.inputChan != [])
  }

  function Response(a: Acceptor, decision: int): Option<Bytes>
    requires CanRespond(a, decision)
  {
    if decision == Accept then Some(a.inputChan[0]) else None
  }

  function Respond(a: Acceptor, decision: int): Acceptor
    requires CanRespond(a, decision)
  {
    a.(answered := true, inputChan := if decision == Accept then a.inputChan[1..] else a.inputChan)
  }

  // ---- bkr

  function Accepted(results: seq<Option<Bytes>>): seq<Bytes> {
    if results == [] then []
    else
      var last := results[|results| - 1];
      Accepted(results[..|results| - 1]) + (if last.Some? then [last.value] else [])
  }

  // Where processResponses stands. Between hasProposed and rejectProposal the lock is free.
  datatype Pc = Waiting | Checking(k: nat) | Rejecting(k: nat) | Done

  datatype Queued = Queued(response: Option<Bytes>, idx: nat)

  datatype Node = Node(
    f: nat,
    acceptors: seq<Acceptor>,
    results: seq<Option<Bytes>>,
    queue: seq<Queued>,           // resultsChan
    processed: nat,
    pc: Pc,
    output: Option<seq<Bytes>>,
    taken: set<nat>,              // history: responses processed so far
    swept: bool)                  // history: the reject sweep has begun

  function FreshNode(n: nat, f: nat): Node {
    Node(f, seq(n, _ => FreshAcceptor()), seq(n, _ => None), [], 0, Waiting, None, {}, false)
  }

  function Continue(x: Node): Node {
    if x.processed == |x.acceptors|
    then x.(pc := Done, output := Some(Accepted(x.results)))
    else x.(pc := Waiting)
  }

  predicate CanTake(x: Node) {
    x.pc.Waiting? && x.queue != [] && x.queue[0].idx < |x.results|
  }

  function Take(x: Node): Node
    requires CanTake(x)
  {
    var q := x.queue[0];
    var y := x.(queue := x.queue[1..], results := x.results[q.idx := q.response], processed := x.processed + 1,
                taken := x.taken + {q.idx});
    if q.response.Some? && |Accepted(y.results)| == |y.acceptors| - y.f
    then y.(pc := Checking(0), swept := true)
    else Continue(y)
  }

  predicate CanSweep(x: Node) {
    x.pc.Checking? || x.pc.Rejecting?
  }

  function Sweep(x: Node): Node
    requires CanSweep(x)
  {
    var k := x.pc.k;
    if k >= |x.acceptors| then Continue(x)
    else if x.pc.Rejecting? then
      x.(acceptors := x.acceptors[k := RejectProposal(x.acceptors[k])], pc := Checking(k + 1))
    else if x.acceptors[k].proposed then x.(pc := Checking(k + 1))
    else x.(pc := Rejecting(k))
  }

  function ReceiveInput(x: Node, i: nat, v: Bytes): Node
    requires i < |x.acceptors|
  {
    x.(acceptors := x.acceptors[i := SubmitInput(x.acceptors[i], v)])
  }

  // waitResponse and waitAcceptorResponse of acceptor i, once its agreement has decided.
  predicate CanAnswer(x: Node, i: nat, decision: int) {
    i < |x.acceptors| && CanRespond(x.acceptors[i], decision)
  }

  function Answer(x: Node, i: nat, decision: int): Node
    requires CanAnswer(x, i, decision)
  {
    x.(acceptors := x.acceptors[i := Respond(x.acceptors[i], decision)],
       queue := x.queue + [Queued(Response(x.acceptors[i], decision), i)])
  }

  // ---- the output list

  ghost function SomeSet(results: seq<Option<Bytes>>): set<nat> {
    set i: nat | i < |results| && results[i].Some?
  }

  lemma {:induction false} AcceptedSize(results: seq<Option<Bytes>>)
    ensures |Accepted(results)| == |SomeSet(results)|
  {
    if results != [] {
      var k := |results| - 1;
      AcceptedSize(results[..k]);
      if results[k].Some? {
        assert SomeSet(results) == SomeSet(results[..k]) + {k};
      } else {
        assert SomeSet(results) == SomeSet(results[..k]);
      }
    }
  }

  // Two result lists with the same entries present give the same output exactly when they are equal.
  lemma {:induction false} AcceptedInjective(a: seq<Option<Bytes>>, b: seq<Option<Bytes>>)
    requires |a| == |b| && forall i :: 0 <= i < |a| ==> a[i].Some? == b[i].Some?
    ensures Accepted(a) == Accepted(b) <==> a == b
  {
    if a != [] {
      var k := |a| - 1;
      AcceptedInjective(a[..k], b[..k]);
      AcceptedSize(a[..k]);
      AcceptedSize(b[..k]);
      assert SomeSet(a[..k]) == SomeSet(b[..k]);
      assert a == a[..k] + [a[k]] && b == b[..k] + [b[k]];
      var n := |Accepted(a[..k])|;
      assert Accepted(a)[..n] == Accepted(a[..k]) && Accepted(b)[..n] == Accepted(b[..k]);
      assert a[k].Some? ==> Accepted(a)[n] == a[k].value && Accepted(b)[n] == b[k].value;
    }
  }

  // ---- what every step of a node keeps

  ghost predicate AcceptorOk(a: Acceptor) {
    && |a.proposals| == (if a.proposed then 1 else 0)
    && (forall i :: 0 <= i < |a.proposals| ==> a.proposals[i] == Accept || a.proposals[i] == Reject)
    && (a.input.Some? ==> a.proposed)
    && (Accept in a.proposals ==> a.input.Some?)
    && (!a.answered ==> a.inputChan == (if a.input.Some? then [a.input.value] else []))
    && (a.input.None? ==> a.inputChan == []) && |a.inputChan| <= 1
  }

  ghost predicate AcceptorsOk(acceptors: seq<Acceptor>) {
    forall i :: 0 <= i < |acceptors| ==> AcceptorOk(acceptors[i])
  }

  type Decisions = map<nat, int>

  // The response of acceptor i is what its agreement decided, with the first input submitted to it.
  ghost predicate ResponseOk(decisions: Decisions, a: Acceptor, i: nat, r: Option<Bytes>) {
    && a.answered && i in decisions
    && r == (if decisions[i] == Accept then a.input else None)
    && (decisions[i] == Accept ==> r.Some?)
  }

  ghost predicate QueueOk(decisions: Decisions, acceptors: seq<Acceptor>, queue: seq<Queued>, taken: set<nat>) {
    && (forall j :: 0 <= j < |queue| ==>
          && queue[j].idx < |acceptors| && queue[j].idx !in taken
          && ResponseOk(decisions, acceptors[queue[j].idx], queue[j].idx, queue[j].response))
    && (forall j, k :: 0 <= j < k < |queue| ==> queue[j].idx != queue[k].idx)
  }

  ghost predicate ResultsOk(decisions: Decisions, acceptors: seq<Acceptor>, results: seq<Option<Bytes>>, taken: set<nat>) {
    && |results| == |acceptors|
    && (forall i :: i in taken ==> i < |acceptors|)
    && (forall i: nat :: i < |acceptors| ==>
          if i in taken then ResponseOk(decisions, acceptors[i], i, results[i]) else results[i].None?)
  }

  ghost predicate Pending(queue: seq<Queued>, i: nat) {
    exists j :: 0 <= j < |queue| && queue[j].idx == i
  }

  ghost predicate AnsweredOk(acceptors: seq<Acceptor>, queue: seq<Queued>, taken: set<nat>) {
    forall i: nat :: i < |acceptors| && acceptors[i].answered ==> i in taken || Pending(queue, i)
  }

  ghost predicate SweepOk(f: nat, acceptors: seq<Acceptor>, results: seq<Option<Bytes>>, pc: Pc, swept: bool) {
    && (swept <==> |Accepted(results)| >= |acceptors| - f)
    && (pc.Checking? || pc.Rejecting? ==> swept)
    && (swept ==> forall i: nat :: i < |acceptors| && (pc.Checking? || pc.Rejecting? ==> i < pc.k) ==> acceptors[i].proposed)
    && (forall i: nat :: i < |acceptors| && Reject in acceptors[i].proposals ==> swept)
  }

  ghost predicate EndOk(x: Node) {
    && x.processed == |x.taken|
    && (x.pc.Done? ==> x.processed == |x.acceptors| && x.output == Some(Accepted(x.results)))
    && (!x.pc.Done? ==> x.output.None?)
    && (x.pc.Waiting? ==> x.processed != |x.acceptors|)
  }

  ghost predicate NodeInv(decisions: Decisions, n: nat, f: nat, x: Node) {
    && f < n && |x.acceptors| == n && x.f == f
    && AcceptorsOk(x.acceptors)
    && QueueOk(decisions, x.acceptors, x.queue, x.taken)
    && ResultsOk(decisions, x.acceptors, x.results, x.taken)
    && AnsweredOk(x.acceptors, x.queue, x.taken)
    && SweepOk(f, x.acceptors, x.results, x.pc, x.swept)
    && EndOk(x)
  }

  // ---- preservation

  lemma FreshInv(n: nat, f: nat)
    requires f < n
    ensures NodeInv(map[], n, f, FreshNode(n, f))
  {
    var x := FreshNode(n, f);
    FreshSweep(n, f, x.acceptors, x.results);
    assert AcceptorsOk(x.acceptors) && AnsweredOk(x.acceptors, x.queue, x.taken);
    assert QueueOk(map[], x.acceptors, x.queue, x.taken) && ResultsOk(map[], x.acceptors, x.results, x.taken);
  }

  lemma FreshSweep(n: nat, f: nat, acceptors: seq<Acceptor>, results: seq<Option<Bytes>>)
    requires f < n && |acceptors| == |results| == n
    requires forall i :: 0 <= i < n ==> acceptors[i] == FreshAcceptor() && results[i].None?
    ensures SweepOk(f, acceptors, results, Waiting, false)
  {
    AcceptedSize(results);
    assert SomeSet(results) == {};
  }

  // Replacing acceptor i by one that only gained.
  ghost predicate Gained(a: Acceptor, b: Acceptor) {
    && AcceptorOk(b)
    && (a.input.Some? ==> b.input == a.input)
    && (a.proposed ==> b.proposed && b.proposals == a.proposals)
    && b.answered == a.answered
  }

  lemma GainedKept(decisions: Decisions, acceptors: seq<Acceptor>, i: nat, b: Acceptor, queue: seq<Queued>, results: seq<Option<Bytes>>, taken: set<nat>)
    requires i < |acceptors| && Gained(acceptors[i], b) && AcceptorsOk(acceptors)
    requires QueueOk(decisions, acceptors, queue, taken)
    requires ResultsOk(decisions, acceptors, results, taken) && AnsweredOk(acceptors, queue, taken)
    ensures var acceptors' := acceptors[i := b];
            && AcceptorsOk(acceptors') && QueueOk(decisions, acceptors', queue, taken)
            && ResultsOk(decisions, acceptors', results, taken) && AnsweredOk(acceptors', queue, taken)
  {
    var acceptors' := acceptors[i := b];
    forall k: nat, r | k < |acceptors| && ResponseOk(decisions, acceptors[k], k, r)
      ensures ResponseOk(decisions, acceptors'[k], k, r)
    {
    }
  }

  lemma InputInv(decisions: Decisions, n: nat, f: nat, x: Node, i: nat, v: Bytes)
    requires NodeInv(decisions, n, f, x) && i < n
    ensures NodeInv(decisions, n, f, ReceiveInput(x, i, v))
  {
    GainedKept(decisions, x.acceptors, i, SubmitInput(x.acceptors[i], v), x.queue, x.results, x.taken);
  }

  lemma ContinueInv(decisions: Decisions, n: nat, f: nat, x: Node)
    requires f < n && |x.acceptors| == n && x.f == f
    requires AcceptorsOk(x.acceptors) && QueueOk(decisions, x.acceptors, x.queue, x.taken)
    requires ResultsOk(decisions, x.acceptors, x.results, x.taken) && AnsweredOk(x.acceptors, x.queue, x.taken)
    requires SweepOk(f, x.acceptors, x.results, Waiting, x.swept)
    requires x.processed == |x.taken| && x.output.None?
    ensures NodeInv(decisions, n, f, Continue(x))
  {
  }

  lemma RejectSweep(f: nat, acceptors: seq<Acceptor>, results: seq<Option<Bytes>>, k: nat, swept: bool)
    requires AcceptorsOk(acceptors) && SweepOk(f, acceptors, results, Rejecting(k), swept) && k < |acceptors|
    ensures SweepOk(f, acceptors[k := RejectProposal(acceptors[k])], results, Checking(k + 1), swept)
  {
  }

  lemma CheckSweep(f: nat, acceptors: seq<Acceptor>, results: seq<Option<Bytes>>, k: nat, swept: bool)
    requires SweepOk(f, acceptors, results, Checking(k), swept) && k < |acceptors|
    ensures SweepOk(f, acceptors, results, Rejecting(k), swept)
    ensures acceptors[k].proposed ==> SweepOk(f, acceptors, results, Checking(k + 1), swept)
  {
  }

  lemma SweepInv(decisions: Decisions, n: nat, f: nat, x: Node)
    requires NodeInv(decisions, n, f, x) && CanSweep(x)
    ensures NodeInv(decisions, n, f, Sweep(x))
  {
    var k := x.pc.k;
    if k >= n {
      ContinueInv(decisions, n, f, x);
    } else if x.pc.Rejecting? {
      GainedKept(decisions, x.acceptors, k, RejectProposal(x.acceptors[k]), x.queue, x.results, x.taken);
      RejectSweep(f, x.acceptors, x.results, k, x.swept);
    } else {
      CheckSweep(f, x.acceptors, x.results, k, x.swept);
    }
  }

  lemma AnswerFacts(decisions: Decisions, acceptors: seq<Acceptor>, i: nat, queue: seq<Queued>, results: seq<Option<Bytes>>, taken: set<nat>)
    requires i < |acceptors| && i in decisions && CanRespond(acceptors[i], decisions[i]) && AcceptorsOk(acceptors)
    requires QueueOk(decisions, acceptors, queue, taken)
    requires ResultsOk(decisions, acceptors, results, taken) && AnsweredOk(acceptors, queue, taken)
    ensures var acceptors' := acceptors[i := Respond(acceptors[i], decisions[i])];
            var queue' := queue + [Queued(Response(acceptors[i], decisions[i]), i)];
            && AcceptorsOk(acceptors') && QueueOk(decisions, acceptors', queue', taken)
            && ResultsOk(decisions, acceptors', results, taken) && AnsweredOk(acceptors', queue', taken)
  {
    var queue' := queue + [Queued(Response(acceptors[i], decisions[i]), i)];
    assert i !in taken;
    forall j: nat | j < |queue| ensures queue[j].idx != i {
    }
    forall k: nat | Pending(queue, k) ensures Pending(queue', k) {
      var j :| 0 <= j < |queue| && queue[j].idx == k;
      assert queue'[j].idx == k;
    }
    assert queue'[|queue|].idx == i;
  }

  lemma AnswerInv(decisions: Decisions, n: nat, f: nat, x: Node, i: nat)
    requires NodeInv(decisions, n, f, x) && i in decisions && CanAnswer(x, i, decisions[i])
    ensures NodeInv(decisions, n, f, Answer(x, i, decisions[i]))
  {
    AnswerFacts(decisions, x.acceptors, i, x.queue, x.results, x.taken);
  }

  lemma OneMore(results: seq<Option<Bytes>>, i: nat, r: Option<Bytes>)
    requires i < |results| && results[i].None?
    ensures |Accepted(results[i := r])| == |Accepted(results)| + (if r.Some? then 1 else 0)
  {
    AcceptedSize(results);
    AcceptedSize(results[i := r]);
    if r.Some? {
      assert SomeSet(results[i := r]) == SomeSet(results) + {i};
    } else {
      assert results[i := r] == results;
    }
  }

  lemma TakeFacts(decisions: Decisions, acceptors: seq<Acceptor>, queue: seq<Queued>, results: seq<Option<Bytes>>, taken: set<nat>)
    requires queue != [] && QueueOk(decisions, acceptors, queue, taken)
    requires ResultsOk(decisions, acceptors, results, taken) && AnsweredOk(acceptors, queue, taken)
    ensures var q := queue[0];
            && q.idx < |acceptors| && q.idx !in taken && results[q.idx].None?
            && QueueOk(decisions, acceptors, queue[1..], taken + {q.idx})
            && ResultsOk(decisions, acceptors, results[q.idx := q.response], taken + {q.idx})
            && AnsweredOk(acceptors, queue[1..], taken + {q.idx})
  {
    forall k: nat | Pending(queue, k) && k != queue[0].idx ensures Pending(queue[1..], k) {
      var j :| 0 <= j < |queue| && queue[j].idx == k;
      assert queue[1..][j - 1].idx == k;
    }
  }

  // A response that completes n - f acceptances starts the sweep; no other does.
  lemma TakeSweep(f: nat, acceptors: seq<Acceptor>, results: seq<Option<Bytes>>, q: Queued, swept: bool)
    requires |results| == |acceptors| && q.idx < |results| && results[q.idx].None?
    requires SweepOk(f, acceptors, results, Waiting, swept)
    ensures var results' := results[q.idx := q.response];
            if q.response.Some? && |Accepted(results')| == |acceptors| - f
            then SweepOk(f, acceptors, results', Checking(0), true)
            else SweepOk(f, acceptors, results', Waiting, swept)
  {
    OneMore(results, q.idx, q.response);
  }

  lemma SweepBegins(decisions: Decisions, n: nat, f: nat, x: Node)
    requires f < n && |x.acceptors| == n && x.f == f
    requires AcceptorsOk(x.acceptors) && QueueOk(decisions, x.acceptors, x.queue, x.taken)
    requires ResultsOk(decisions, x.acceptors, x.results, x.taken) && AnsweredOk(x.acceptors, x.queue, x.taken)
    requires SweepOk(f, x.acceptors, x.results, Checking(0), true)
    requires x.processed == |x.taken| && x.output.None?
    ensures NodeInv(decisions, n, f, x.(pc := Checking(0), swept := true))
  {
  }

  lemma TakeInv(decisions: Decisions, n: nat, f: nat, x: Node)
    requires NodeInv(decisions, n, f, x) && CanTake(x)
    ensures NodeInv(decisions, n, f, Take(x))
  {
    var q := x.queue[0];
    TakeFacts(decisions, x.acceptors, x.queue, x.results, x.taken);
    var y := x.(queue := x.queue[1..], results := x.results[q.idx := q.response], processed := x.processed + 1,
                taken := x.taken + {q.idx});
    TakeSweep(f, x.acceptors, x.results, q, x.swept);
    if q.response.Some? && |Accepted(y.results)| == |y.acceptors| - y.f {
      SweepBegins(decisions, n, f, y);
    } else {
      ContinueInv(decisions, n, f, y);
    }
  }

  // Another agreement deciding does not disturb a node.
  lemma DecideInv(decisions: Decisions, n: nat, f: nat, x: Node, i: nat, v: int)
    requires NodeInv(decisions, n, f, x) && i !in decisions
    ensures NodeInv(decisions[i := v], n, f, x)
  {
  }
}
