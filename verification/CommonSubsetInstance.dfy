/** The common subset as the program runs it: acceptors updated under their lock, and the loop that
    processes their responses. Each stretch of the loop between two lock operations is a method, and one
    step of the state machine; ProcessResponse is a whole turn of the loop. */
module CommonSubsetInstance {
  import opened CommonSubsetNode

  class ProposalAcceptor {
    const proposer: nat
    var input: Option<Bytes>
    var inputChan: seq<Bytes>
    var proposed: bool
    var proposals: seq<int>
    var answered: bool

    ghost function View(): Acceptor reads this {
      Acceptor(input, inputChan, proposed, proposals, answered)
    }

    constructor (proposer: nat)
      ensures this.proposer == proposer && View() == FreshAcceptor()
    {
      this.proposer := proposer;
      input, inputChan, proposed, proposals, answered := None, [], false, [], false;
    }

    method SubmitInput(x: Bytes) returns (ok: bool)
      modifies this
      ensures View() == CommonSubsetNode.SubmitInput(old(View()), x)
      ensures ok == old(input).None? && proposed == (ok || old(proposed))
      ensures ok ==> input == Some(x) && inputChan == old(inputChan) + [x]
      ensures proposals == old(proposals) + if ok && !old(proposed) then [Accept] else []
    {
      if input.Some? {
        return false;
      }
      input := Some(x);
      inputChan := inputChan + [x];
      if !proposed {
        proposed := true;
        proposals := proposals + [Accept];
      }
      ok := true;
    }

    method RejectProposal() returns (ok: bool)
      modifies this
      ensures View() == CommonSubsetNode.RejectProposal(old(View()))
      ensures ok == old(input).None?
    {
      if input.Some? {
        return false;
      }
      if !proposed {
        proposed := true;
        proposals := proposals + [Reject];
      }
      ok := true;
    }

    method HasProposed() returns (b: bool)
      ensures b == View().proposed
    {
      b := proposed;
    }

    // Once the agreement has decided, and for an accept once the input is there.
    method WaitResponse(decision: int) returns (response: Option<Bytes>)
      requires CanRespond(View(), decision)
      modifies this
      ensures response == Response(old(View()), decision)
      ensures View() == Respond(old(View()), decision)
    {
      response := None;
      if decision == Accept {
        response := Some(inputChan[0]);
        inputChan := inputChan[1..];
      }
      answered := true;
    }
  }

  // The sweep taken to its end with nothing in between.
  function FinishSweep(x: Node): Node
    decreases SweepLeft(x)
  {
    if CanSweep(x) then FinishSweep(Sweep(x)) else x
  }

  function SweepLeft(x: Node): nat {
    var left := if CanSweep(x) && x.pc.k <= |x.acceptors| then 2 * (|x.acceptors| - x.pc.k) else 0;
    if x.pc.Checking? then left + 2 else if x.pc.Rejecting? then left + 1 else 0
  }

  // What the sweep does to one acceptor.
  function Swept(a: Acceptor): Acceptor {
    if a.proposed then a else CommonSubsetNode.RejectProposal(a)
  }

  lemma SweepOne(x: Node, k: nat)
    requires x.pc == Checking(k) && k < |x.acceptors|
    ensures FinishSweep(x) == FinishSweep(x.(acceptors := x.acceptors[k := Swept(x.acceptors[k])], pc := Checking(k + 1)))
  {
    var y := Sweep(x);
    if x.acceptors[k].proposed {
      assert x.acceptors[k := Swept(x.acceptors[k])] == x.acceptors;
    } else {
      assert FinishSweep(y) == FinishSweep(Sweep(y));
    }
  }

  class Bkr {
    const f: nat
    const acceptors: seq<ProposalAcceptor>
    var results: seq<Option<Bytes>>
    var resultsChan: seq<Queued>
    var processed: nat
    var pc: Pc
    var output: Option<seq<Bytes>>
    ghost var taken: set<nat>
    ghost var hasSwept: bool

    // No two positions share an acceptor.
    ghost predicate Valid() reads this`results {
      && |results| == |acceptors|
      && forall i, j :: 0 <= i < j < |acceptors| ==> acceptors[i] != acceptors[j]
    }

    ghost function Acceptors(): seq<Acceptor> reads acceptors {
      seq(|acceptors|, i requires 0 <= i < |acceptors| reads acceptors => acceptors[i].View())
    }

    constructor (f: nat, acceptors: seq<ProposalAcceptor>)
      requires forall i, j :: 0 <= i < j < |acceptors| ==> acceptors[i] != acceptors[j]
      requires forall i :: 0 <= i < |acceptors| ==> acceptors[i].View() == FreshAcceptor()
      ensures this.acceptors == acceptors && Valid() && View() == FreshNode(|acceptors|, f)
    {
      this.f, this.acceptors, results := f, acceptors, seq(|acceptors|, _ => None);
      resultsChan, processed, pc, output, taken, hasSwept := [], 0, Waiting, None, {}, false;
    }

    ghost function View(): Node reads this, acceptors {
      Node(f, Acceptors(), results, resultsChan, processed, pc, output, taken, hasSwept)
    }

    method GetAccepted() returns (accepted: seq<Bytes>)
      ensures accepted == Accepted(results)
    {
      accepted := [];
      for i := 0 to |results|
        invariant accepted == Accepted(results[..i])
      {
        assert results[..i + 1][..i] == results[..i];
        if results[i].Some? {
          accepted := accepted + [results[i].value];
        }
      }
      assert results[..|results|] == results;
    }

    method GetAcceptor(proposer: nat) returns (found: Option<nat>)
      ensures found.Some? ==> found.value < |acceptors| && acceptors[found.value].proposer == proposer
      ensures found.None? ==> forall i :: 0 <= i < |acceptors| ==> acceptors[i].proposer != proposer
    {
      for i := 0 to |acceptors|
        invariant forall j :: 0 <= j < i ==> acceptors[j].proposer != proposer
      {
        if acceptors[i].proposer == proposer {
          return Some(i);
        }
      }
      found := None;
    }

    method ReceiveInput(input: Bytes, proposer: nat) returns (ok: bool, ghost at: Option<nat>)
      requires Valid()
      modifies acceptors
      ensures at.Some? ==> at.value < |acceptors| && acceptors[at.value].proposer == proposer
      ensures at.None? ==> forall i :: 0 <= i < |acceptors| ==> acceptors[i].proposer != proposer
      ensures View() == if at.Some? then CommonSubsetNode.ReceiveInput(old(View()), at.value, input) else old(View())
      ensures ok == (at.Some? && old(View()).acceptors[at.value].input.None?)
    {
      var found := GetAcceptor(proposer);
      at := found;
      ok := false;
      if found.Some? {
        ok := acceptors[found.value].SubmitInput(input);
        assert Acceptors() == old(Acceptors())[found.value := CommonSubsetNode.SubmitInput(old(Acceptors())[found.value], input)];
      }
    }

    // waitAcceptorResponse: the answer of one acceptor, queued with its position.
    method WaitAcceptorResponse(i: nat, decision: int)
      requires Valid() && CanAnswer(View(), i, decision)
      modifies this`resultsChan, acceptors
      ensures Valid() && View() == Answer(old(View()), i, decision)
    {
      var response := acceptors[i].WaitResponse(decision);
      resultsChan := resultsChan + [Queued(response, i)];
      assert Acceptors() == old(Acceptors())[i := Respond(old(Acceptors())[i], decision)];
    }

    // ---- processResponses, one lock-free stretch at a time

    // Takes a response, and starts the reject sweep if it completes n - f acceptances.
    method TakeResponse()
      requires Valid() && CanTake(View())
      modifies this
      ensures Valid() && View() == Take(old(View()))
    {
      var q := Receive();
      var accepted := GetAccepted();
      if q.response.Some? && |accepted| == |acceptors| - f {
        pc, hasSwept := Checking(0), true;
      } else {
        Continue();
      }
    }

    method Receive() returns (q: Queued)
      requires Valid() && CanTake(View())
      modifies this`resultsChan, this`results, this`processed, this`taken
      ensures Valid() && q == old(resultsChan)[0]
      ensures View() == old(View()).(queue := old(resultsChan)[1..], results := old(results)[q.idx := q.response],
                                     processed := old(processed) + 1, taken := old(taken) + {q.idx})
    {
      q := resultsChan[0];
      resultsChan := resultsChan[1..];
      results := results[q.idx := q.response];
      processed := processed + 1;
      taken := taken + {q.idx};
    }

    // One call under an acceptor's lock: hasProposed, or rejectProposal if it had not. In between the lock
    // is free, and any other method may run.
    method SweepStep()
      requires Valid() && CanSweep(View())
      modifies this`pc, this`output, acceptors
      ensures Valid() && View() == CommonSubsetNode.Sweep(old(View()))
    {
      var k := pc.k;
      if k >= |acceptors| {
        Continue();
      } else if pc.Rejecting? {
        var _ := acceptors[k].RejectProposal();
        assert Acceptors() == old(Acceptors())[k := CommonSubsetNode.RejectProposal(old(Acceptors())[k])];
        pc := Checking(k + 1);
      } else {
        var proposed := acceptors[k].HasProposed();
        pc := if proposed then Checking(k + 1) else Rejecting(k);
      }
    }

    // After the last response, the accepted proposals are the output.
    method Continue()
      requires Valid()
      modifies this`pc, this`output
      ensures View() == CommonSubsetNode.Continue(old(View()))
    {
      if processed == |acceptors| {
        var accepted := GetAccepted();
        pc, output := Done, Some(accepted);
      } else {
        pc := Waiting;
      }
    }

    // One whole turn of the loop, when nothing else runs in between.
    method ProcessResponse()
      requires Valid() && CanTake(View())
      modifies this, acceptors
      ensures Valid() && View() == FinishSweep(Take(old(View())))
    {
      TakeResponse();
      while pc.Checking? || pc.Rejecting?
        invariant Valid() && FinishSweep(View()) == FinishSweep(Take(old(View())))
        decreases SweepLeft(View())
      {
        SweepStep();
      }
    }
  }

  // ---- the sweep as a whole

  lemma {:induction false} SweptFrom(x: Node, k: nat)
    requires x.pc == Checking(k) && k <= |x.acceptors|
    ensures var y := FinishSweep(x);
            && |y.acceptors| == |x.acceptors| && y.results == x.results && y.queue == x.queue
            && (forall i: nat :: i < |x.acceptors| ==>
                  y.acceptors[i] == if i < k then x.acceptors[i] else Swept(x.acceptors[i]))
    decreases |x.acceptors| - k
  {
    if k < |x.acceptors| {
      SweepOne(x, k);
      SweptFrom(x.(acceptors := x.acceptors[k := Swept(x.acceptors[k])], pc := Checking(k + 1)), k + 1);
    }
  }

  /** The sweep proposes reject exactly where this node had not proposed, leaves every other acceptor and all
      inputs alone, and leaves no agreement without a proposal. */
  lemma SweepProposesEverywhere(x: Node)
    requires x.pc == Checking(0) && AcceptorsOk(x.acceptors)
    ensures var y := FinishSweep(x);
            && |y.acceptors| == |x.acceptors|
            && forall i: nat :: i < |x.acceptors| ==>
                 && y.acceptors[i].proposed && y.acceptors[i].input == x.acceptors[i].input
                 && y.acceptors[i].proposals == if x.acceptors[i].proposed then x.acceptors[i].proposals else [Reject]
  {
    SweptFrom(x, 0);
  }
}
