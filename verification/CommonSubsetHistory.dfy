/** What a node of the common subset is, told from the events of its run: the input an acceptor holds is the
    first that came, whatever was proposed by then; what it proposed is decided by whether that input or the
    reject came first; and a decided agreement can be answered exactly when nothing else is missing. */
module CommonSubsetHistory {
  import opened Quorums
  import opened CommonSubsetNode
  import opened CommonSubsetRuns

  // A run with the events that made it.
  ghost predicate IsHistory(g: Group, inputs: Inputs, run: seq<System>, es: seq<Event>) {
    && |run| == |es| + 1 && run[0] == Initial(g)
    && forall k :: 0 <= k < |es| ==> Step(g, inputs, run[k], es[k], run[k + 1])
  }

  lemma HistoryIsRun(g: Group, inputs: Inputs, run: seq<System>, es: seq<Event>)
    requires IsHistory(g, inputs, run, es)
    ensures IsRun(g, inputs, run)
  {
    forall k | 0 <= k < |run| - 1 ensures Next(g, inputs, run[k], run[k + 1]) {
      assert Step(g, inputs, run[k], es[k], run[k + 1]);
    }
  }

  // ---- what the events say

  // The first input from proposer i to reach p among the first j events.
  function FirstInput(es: seq<Event>, p: Id, i: nat, j: nat): Option<Bytes>
    requires j <= |es|
  {
    if j == 0 then None
    else
      var e, before := es[j - 1], FirstInput(es, p, i, j - 1);
      if before.Some? then before
      else if e.Input? && e.p == p && e.i == i then Some(e.v) else None
  }

  // Step k is p's rejectProposal on acceptor i.
  ghost predicate Rejects(s: System, e: Event, p: Id, i: nat) {
    e == Event.Swept(p) && p in s.nodes && s.nodes[p].pc == Rejecting(i)
  }

  // Accept if an input came first, reject if the sweep did.
  ghost function FirstProposal(run: seq<System>, es: seq<Event>, p: Id, i: nat, j: nat): Option<int>
    requires j <= |es| <= |run|
  {
    if j == 0 then None
    else
      var e, before := es[j - 1], FirstProposal(run, es, p, i, j - 1);
      if before.Some? then before
      else if e.Input? && e.p == p && e.i == i then Some(Accept)
      else if Rejects(run[j - 1], e, p, i) then Some(Reject)
      else None
  }

  // The acceptors p has answered for, in order.
  function AnswerOrder(es: seq<Event>, p: Id, j: nat): seq<nat>
    requires j <= |es|
  {
    if j == 0 then []
    else AnswerOrder(es, p, j - 1) + if es[j - 1].Answered? && es[j - 1].p == p then [es[j - 1].i] else []
  }

  function TakenCount(es: seq<Event>, p: Id, j: nat): nat
    requires j <= |es|
  {
    if j == 0 then 0 else TakenCount(es, p, j - 1) + if es[j - 1] == Event.Taken(p) then 1 else 0
  }

  // ---- one acceptor

  ghost predicate AcceptorDid(a: Acceptor, first: Option<Bytes>, proposal: Option<int>, answered: bool) {
    && a.input == first && a.answered == answered
    && a.proposed == proposal.Some? && (first.Some? ==> proposal.Some?)
    && a.proposals == if proposal.Some? then [proposal.value] else []
  }

  // What an event does to acceptor i of p.
  function Changed(a: Acceptor, e: Event, p: Id, i: nat, rejects: bool, decisions: Decisions): Acceptor {
    if e.Input? && e.p == p && e.i == i then SubmitInput(a, e.v)
    else if e == Answered(p, i) && i in decisions && CanRespond(a, decisions[i]) then Respond(a, decisions[i])
    else if rejects then RejectProposal(a)
    else a
  }

  lemma AcceptorStep(g: Group, inputs: Inputs, s: System, e: Event, s': System, p: Id, i: nat)
    requires Step(g, inputs, s, e, s') && p in s.nodes && i < |s.nodes[p].acceptors|
    ensures p in s'.nodes && |s'.nodes[p].acceptors| == |s.nodes[p].acceptors|
    ensures s'.nodes[p].acceptors[i] == Changed(s.nodes[p].acceptors[i], e, p, i, Rejects(s, e, p, i), s.decisions)
  {
  }

  lemma AnsweredThen(g: Group, inputs: Inputs, s: System, s': System, p: Id, i: nat)
    requires Step(g, inputs, s, Answered(p, i), s') && p in s.nodes && i < |s.nodes[p].acceptors|
    ensures i in s.decisions && CanRespond(s.nodes[p].acceptors[i], s.decisions[i])
  {
  }

  lemma {:induction false} AcceptorDidAt(g: Group, inputs: Inputs, run: seq<System>, es: seq<Event>, p: Id, i: nat, j: nat)
    requires IsHistory(g, inputs, run, es) && p in g.correct && i < g.n && j <= |es|
    ensures p in run[j].nodes && |run[j].nodes[p].acceptors| == g.n
    ensures AcceptorDid(run[j].nodes[p].acceptors[i], FirstInput(es, p, i, j), FirstProposal(run, es, p, i, j), i in AnswerOrder(es, p, j))
  {
    if j > 0 {
      var k := j - 1;
      AcceptorDidAt(g, inputs, run, es, p, i, k);
      assert Step(g, inputs, run[k], es[k], run[k + 1]);
      AcceptorStep(g, inputs, run[k], es[k], run[k + 1], p, i);
      if es[k] == Answered(p, i) {
        AnsweredThen(g, inputs, run[k], run[k + 1], p, i);
      }
    }
  }

  /** At every point of every run: an acceptor of a correct node holds the first input that reached it, even one
      that came after its reject; it has proposed what came first, input or reject, and only that; and once
      its agreement has decided, the node can answer exactly if it has not yet done so and, for an accept,
      an input has reached it. */
  lemma AcceptorHistory(g: Group, inputs: Inputs, run: seq<System>, es: seq<Event>, p: Id, i: nat, j: nat)
    requires Indexed(g) && IsHistory(g, inputs, run, es) && p in g.correct && i < g.n && j <= |es|
    ensures p in run[j].nodes && |run[j].nodes[p].acceptors| == g.n
    ensures var a := run[j].nodes[p].acceptors[i];
            && a.input == FirstInput(es, p, i, j)
            && a.proposals == (match FirstProposal(run, es, p, i, j) case None => [] case Some(v) => [v])
            && (a.answered <==> i in AnswerOrder(es, p, j))
    ensures i in run[j].decisions ==>
              (CanAnswer(run[j].nodes[p], i, run[j].decisions[i]) <==>
               i !in AnswerOrder(es, p, j) && (run[j].decisions[i] == Accept ==> FirstInput(es, p, i, j).Some?))
  {
    AcceptorDidAt(g, inputs, run, es, p, i, j);
    HistoryIsRun(g, inputs, run, es);
    RunGood(g, inputs, run, j);
    assert NodeOk(g, run[j].decisions, run[j].nodes[p]);
    AcceptorFacts(run[j].decisions, g.n, g.f, run[j].nodes[p], i);
  }

  lemma {:induction false} FirstInputStays(es: seq<Event>, p: Id, i: nat, k: nat, j: nat)
    requires k <= j <= |es| && FirstInput(es, p, i, k).Some?
    ensures FirstInput(es, p, i, j) == FirstInput(es, p, i, k)
    decreases j
  {
    if k < j {
      FirstInputStays(es, p, i, k, j - 1);
    }
  }

  /** An input that reaches a correct node is there ever after: as the acceptor's input if it had none, whatever
      it had proposed, and otherwise the earlier one stays. An accept decision can then always be answered. */
  lemma InputKept(g: Group, inputs: Inputs, run: seq<System>, es: seq<Event>, p: Id, i: nat, v: Bytes, k: nat, j: nat)
    requires Indexed(g) && IsHistory(g, inputs, run, es) && k < j <= |es| && es[k] == Input(p, i, v)
    ensures p in run[k].nodes && p in run[j].nodes && i < g.n
    ensures var had := AcceptorAt(run[k].nodes[p], i).input;
            AcceptorAt(run[j].nodes[p], i).input == if had.Some? then had else Some(v)
    ensures i in run[j].decisions && !AcceptorAt(run[j].nodes[p], i).answered ==>
              CanAnswer(run[j].nodes[p], i, run[j].decisions[i])
  {
    InputAddressed(g, inputs, run, es, p, i, v, k);
    FirstInputStays(es, p, i, k + 1, j);
    HeldInput(g, inputs, run, es, p, i, k);
    HeldInput(g, inputs, run, es, p, i, j);
    AcceptorHistory(g, inputs, run, es, p, i, j);
  }

  lemma HeldInput(g: Group, inputs: Inputs, run: seq<System>, es: seq<Event>, p: Id, i: nat, j: nat)
    requires IsHistory(g, inputs, run, es) && p in g.correct && i < g.n && j <= |es|
    ensures p in run[j].nodes && AcceptorAt(run[j].nodes[p], i).input == FirstInput(es, p, i, j)
  {
    AcceptorDidAt(g, inputs, run, es, p, i, j);
  }

  lemma InputAddressed(g: Group, inputs: Inputs, run: seq<System>, es: seq<Event>, p: Id, i: nat, v: Bytes, k: nat)
    requires Indexed(g) && IsHistory(g, inputs, run, es) && k < |es| && es[k] == Input(p, i, v)
    ensures p in g.correct && i < g.n
  {
    HistoryIsRun(g, inputs, run, es);
    RunGood(g, inputs, run, k);
    assert Step(g, inputs, run[k], es[k], run[k + 1]);
    assert NodeOk(g, run[k].decisions, run[k].nodes[p]);
  }

  // ---- the loop

  function Indices(queue: seq<Queued>): seq<nat> {
    seq(|queue|, k requires 0 <= k < |queue| => queue[k].idx)
  }

  ghost predicate LoopDid(x: Node, order: seq<nat>, count: nat) {
    && x.processed == count <= |order|
    && Indices(x.queue) == order[count..]
    && forall i :: i in x.taken <==> i in order[..count]
  }

  lemma IndicesBack(queue: seq<Queued>, q: Queued)
    ensures Indices(queue + [q]) == Indices(queue) + [q.idx]
    ensures queue != [] ==> Indices(queue[1..]) == Indices(queue)[1..]
  {
  }

  lemma OneAnswered(x: Node, order: seq<nat>, count: nat, i: nat, d: int)
    requires LoopDid(x, order, count) && CanAnswer(x, i, d)
    ensures LoopDid(Answer(x, i, d), order + [i], count)
  {
    IndicesBack(x.queue, Queued(Response(x.acceptors[i], d), i));
    assert (order + [i])[count..] == order[count..] + [i] && (order + [i])[..count] == order[..count];
  }

  lemma OneTaken(x: Node, order: seq<nat>, count: nat)
    requires LoopDid(x, order, count) && CanTake(x)
    ensures LoopDid(Take(x), order, count + 1)
  {
    IndicesBack(x.queue, x.queue[0]);
    assert |Indices(x.queue)| > 0;
    assert order[..count + 1] == order[..count] + [order[count]];
    assert order[count..][0] == order[count] && order[count..][1..] == order[count + 1..];
  }

  lemma LoopStep(g: Group, inputs: Inputs, s: System, e: Event, s': System, p: Id, order: seq<nat>, count: nat)
    requires Step(g, inputs, s, e, s') && p in s.nodes && LoopDid(s.nodes[p], order, count)
    ensures p in s'.nodes
    ensures LoopDid(s'.nodes[p], order + (if e.Answered? && e.p == p then [e.i] else []), count + (if e == Event.Taken(p) then 1 else 0))
  {
    if e.Answered? && e.p == p {
      OneAnswered(s.nodes[p], order, count, e.i, s.decisions[e.i]);
    } else {
      assert order + [] == order;
      if e == Event.Taken(p) { OneTaken(s.nodes[p], order, count); }
    }
  }

  /** The loop takes the answers in the order they were given, each once, and has taken as many as it took
      turns: what is queued is the rest. */
  lemma {:induction false} LoopHistory(g: Group, inputs: Inputs, run: seq<System>, es: seq<Event>, p: Id, j: nat)
    requires IsHistory(g, inputs, run, es) && p in g.correct && j <= |es|
    ensures p in run[j].nodes
    ensures var x, order, count := run[j].nodes[p], AnswerOrder(es, p, j), TakenCount(es, p, j);
            && x.processed == count <= |order| && Indices(x.queue) == order[count..]
            && forall i :: i in x.taken <==> i in order[..count]
  {
    if j > 0 {
      var k := j - 1;
      LoopHistory(g, inputs, run, es, p, k);
      assert Step(g, inputs, run[k], es[k], run[k + 1]);
      LoopStep(g, inputs, run[k], es[k], run[k + 1], p, AnswerOrder(es, p, k), TakenCount(es, p, k));
    }
  }

  lemma {:induction false} DecidedOnce(g: Group, inputs: Inputs, run: seq<System>, es: seq<Event>, i: nat, j: nat)
    requires IsHistory(g, inputs, run, es) && j <= |es|
    ensures forall d :: i in run[j].decisions && run[j].decisions[i] == d <==> Decide(i, d) in es[..j]
  {
    if j > 0 {
      var k := j - 1;
      DecidedOnce(g, inputs, run, es, i, k);
      assert Step(g, inputs, run[k], es[k], run[k + 1]);
      assert es[..j] == es[..k] + [es[k]];
    }
  }

  /** What the node has stored for a position is nothing until the loop has taken its answer; from then on, the
      first input that reached the acceptor if its agreement accepted, and nothing if it rejected. The
      output, when there is one, is what is stored. */
  lemma ResultsHistory(g: Group, inputs: Inputs, run: seq<System>, es: seq<Event>, p: Id, i: nat, j: nat)
    requires Indexed(g) && IsHistory(g, inputs, run, es) && p in g.correct && i < g.n && j <= |es|
    ensures p in run[j].nodes && |run[j].nodes[p].results| == g.n
    ensures TakenCount(es, p, j) <= |AnswerOrder(es, p, j)|
    ensures var x, order := run[j].nodes[p], AnswerOrder(es, p, j)[..TakenCount(es, p, j)];
            && (i in order && Decide(i, Accept) in es[..j] ==> x.results[i] == FirstInput(es, p, i, j) && x.results[i].Some?)
            && (i !in order || Decide(i, Accept) !in es[..j] ==> x.results[i].None?)
            && (x.output.Some? ==> x.output == Some(Accepted(x.results)) && TakenCount(es, p, j) == g.n)
  {
    AcceptorHistory(g, inputs, run, es, p, i, j);
    LoopHistory(g, inputs, run, es, p, j);
    DecidedOnce(g, inputs, run, es, i, j);
    HistoryIsRun(g, inputs, run, es);
    RunGood(g, inputs, run, j);
    assert NodeOk(g, run[j].decisions, run[j].nodes[p]);
    StoredAt(run[j].decisions, g.n, g.f, run[j].nodes[p], i);
  }

  lemma StoredAt(decisions: Decisions, n: nat, f: nat, x: Node, i: nat)
    requires NodeInv(decisions, n, f, x) && i < n
    ensures |x.results| == n && (x.output.Some? ==> x.output == Some(Accepted(x.results)) && x.processed == n)
    ensures if i in x.taken then ResponseOk(decisions, x.acceptors[i], i, x.results[i]) else x.results[i].None?
  {
  }
}
