/** The binary agreement as the program runs it: the termination gadget with its counters, the rounds as
    objects created on demand, and the agreement that chains them. Each method is one transition of the
    state machine. */
module AgreementInstance {
  import opened Quorums
  import opened CrusaderNode
  import opened CrusaderInstance
  import opened CrusaderInvariants
  import opened AgreementNode

  const FirstRound: nat := 0

  class Termination {
    const n: nat
    const f: nat
    var received: set<Id>
    var results: PerBit<nat>
    var deliverDecision: seq<int>
    var notifyTermination: nat
    ghost var reports: PerBit<set<Id>>

    // The counters count the distinct senders of each decision.
    ghost predicate Valid() reads this {
      && received == reports.zero + reports.one && reports.zero !! reports.one
      && results.zero == |reports.zero| && results.one == |reports.one|
    }

    ghost function View(): Gadget reads this {
      Gadget(n, f, reports, deliverDecision, notifyTermination)
    }

    constructor (n: nat, f: nat)
      ensures Valid() && View() == Gadget(n, f, PerBit({}, {}), [], 0)
    {
      this.n, this.f := n, f;
      received, results, deliverDecision, notifyTermination := {}, PerBit(0, 0), [], 0;
      reports := PerBit({}, {});
    }

    method SubmitDecision(decision: int, sender: Id) returns (ok: bool)
      requires Valid()
      modifies this
      ensures Valid() && View() == AgreementNode.SubmitDecision(old(View()), decision, sender)
      ensures ok == ReportAccepted(old(View()), decision, sender)
    {
      ok := sender !in received && 0 <= decision < Bot;
      if ok {
        Count(decision, sender);
        if results.At(decision) == f + 1 {
          deliverDecision := deliverDecision + [decision];
        }
        if results.At(0) + results.At(1) == n - f {
          notifyTermination := notifyTermination + 1;
        }
      }
    }

    method Count(decision: int, sender: Id)
      requires Valid() && IsBit(decision) && sender !in received
      modifies this`received, this`results, this`reports
      ensures Valid() && reports == old(reports).Put(decision, old(reports).At(decision) + {sender})
    {
      OneMore(reports, decision, sender);
      received := received + {sender};
      results := results.Put(decision, results.At(decision) + 1);
      reports := reports.Put(decision, reports.At(decision) + {sender});
    }
  }

  ghost function Closed(round: Round, coin: int): Round
    requires round.exec.AwaitCoin?
  {
    round.(exec := Finished(round.exec.dec, coin))
  }

  lemma OneMore(reports: PerBit<set<Id>>, decision: int, sender: Id)
    requires IsBit(decision) && reports.zero !! reports.one && sender !in reports.zero + reports.one
    ensures var after := reports.Put(decision, reports.At(decision) + {sender});
            && after.zero + after.one == reports.zero + reports.one + {sender} && after.zero !! after.one
            && |after.At(decision)| == |reports.At(decision)| + 1 && |after.At(1 - decision)| == |reports.At(1 - decision)|
  {
  }

  /** One round: its crusader agreement, and execRound. A coin that comes before the round has decided waits
      in coinReceive. */
  class RoundInstance {
    const bca: Crusader
    var exec: Exec
    var coinReceive: Chan<int>
    ghost var view: Round

    ghost predicate Valid() reads this, bca {
      view == Round(bca.View(), exec) && Bits(coinReceive.sent)
    }

    ghost predicate Shows(v: Round) reads this, bca {
      Valid() && view == v
    }

    constructor (n: nat, f: nat, r: nat)
      ensures Valid() && fresh(bca) && view == FreshRound(n, f, r) && coinReceive == Chan([], 0)
    {
      bca := new Crusader(VariantOf(r), n, f);
      exec, coinReceive := AwaitDecision, Chan([], 0);
      view := FreshRound(n, f, r);
    }

    // A proposal, a message, or a step of one of the crusader's goroutines.
    method Do(a: Action)
      requires Valid() && Can(view.bca, a)
      modifies this`view, bca
      ensures Valid() && view == Acted(old(view), a)
    {
      match a {
        case Start(est, coin) => var _ := bca.Propose(est, coin);
        case Receive(from, EchoMsg(v)) => var _ := bca.SubmitEcho(v, from);
        case Receive(from, VoteMsg(v)) => var _ := bca.SubmitVote(v, from);
        case Receive(from, BindMsg(v)) => var _ := bca.SubmitBind(v, from);
        case Run(job) => bca.Step(job);
      }
      view := view.(bca := Apply(view.bca, a));
    }

    // execRound takes the decision and asks for the coin.
    method ReadDecision()
      requires Valid() && exec.AwaitDecision? && bca.decide.output != []
      modifies this`exec, this`view
      ensures Valid() && view == old(view).(exec := AwaitCoin(old(view).bca.decide.output[0]))
    {
      exec := AwaitCoin(bca.decide.output[0]);
      view := view.(exec := exec);
    }

    // submitCoin hands the coin over, and then waits for the transition.
    method SubmitCoin(coin: int) returns (ok: bool)
      requires Valid()
      modifies this`coinReceive
      ensures Valid() && ok == IsBit(coin)
      ensures coinReceive == if ok then old(coinReceive).Send(coin) else old(coinReceive)
    {
      ok := IsBit(coin);
      if ok {
        coinReceive := coinReceive.Send(coin);
      }
    }

    // execRound takes the coin and finishes the round.
    method TakeCoin() returns (coin: int, result: Transition)
      requires Valid() && exec.AwaitCoin? && coinReceive.Ready()
      modifies this`exec, this`coinReceive, this`view
      ensures Valid() && IsBit(coin) && coin == old(coinReceive.Head()) && coinReceive == old(coinReceive).Take()
      ensures view == Closed(old(view), coin) && result == RoundResult(old(exec).dec, coin)
      ensures result.decided <==> old(exec).dec == coin
      ensures result.estimate == if old(exec).dec == Bot then coin else old(exec).dec
    {
      var dec := exec.dec;
      coin := coinReceive.Head();
      coinReceive := coinReceive.Take();
      exec := Finished(dec, coin);
      view := view.(exec := exec);
      if dec == Bot {
        result := Transition(coin, false);
      } else {
        result := Transition(dec, false);
        if coin == dec {
          result := result.(decided := true);
        }
      }
    }
  }

  // Rounds lie within their footprint, and different ones share nothing.
  ghost predicate Laid(rounds: map<nat, RoundInstance>, repr: set<object>) {
    forall r :: r in rounds ==> rounds[r] in repr && rounds[r].bca in repr
  }

  ghost predicate Apart(rounds: map<nat, RoundInstance>) {
    forall r, s :: r in rounds && s in rounds && r != s ==> rounds[r] != rounds[s] && rounds[r].bca != rounds[s].bca
  }

  lemma LaidMore(rounds: map<nat, RoundInstance>, repr: set<object>, r: nat, round: RoundInstance)
    requires Laid(rounds, repr) && Apart(rounds) && round !in repr && round.bca !in repr && r !in rounds
    ensures Laid(rounds[r := round], repr + {round, round.bca}) && Apart(rounds[r := round])
  {
  }

  ghost function Acted(round: Round, a: Action): Round
    requires Can(round.bca, a)
  {
    round.(bca := Apply(round.bca, a))
  }

  // submitCoin after the round has handed back its transition.
  ghost function Proceeded(x: Node, r: nat, coin: int, result: Transition): Node {
    if result.decided && !x.hasDecided then x.(hasDecided := true, reached := x.reached + [result.estimate])
    else Act(x, r + 1, Start(result.estimate, coin))
  }

  lemma FinishedRound(x: Node, r: nat, coin: int)
    requires RoundOf(x, r).exec.AwaitCoin? && IsBit(coin)
    ensures var round := RoundOf(x, r);
            AgreementNode.SubmitCoin(x, r, coin) ==
            Proceeded(WithRound(x, r, Closed(round, coin)), r, coin, RoundResult(round.exec.dec, coin))
  {
  }

  lemma Overwritten(m: map<nat, Round>, r: nat, x: Round, y: Round)
    ensures m[r := x][r := y] == m[r := y] && m[r := x][r] == x
  {
  }

  /** The agreement: the rounds made so far, each an object of its own. */
  class Mmr {
    const n: nat
    const f: nat
    const gadget: Termination
    var rounds: map<nat, RoundInstance>
    var hasDecided: bool
    var reachedDecision: seq<int>
    var deliverDecision: seq<int>
    ghost var model: map<nat, Round>
    ghost var Repr: set<object>

    // The rounds are laid out as they should be, and their objects show what the model says.
    ghost predicate Sound()
      reads this`rounds, this`model, this`Repr, Repr
    {
      LaidOut() && forall r :: r in rounds ==> rounds[r].Shows(model[r])
    }

    ghost predicate LaidOut()
      reads this`rounds, this`model, this`Repr
    {
      FirstRound in rounds && model.Keys == rounds.Keys && Laid(rounds, Repr) && Apart(rounds)
    }

    ghost predicate Valid() reads this, gadget, Repr {
      gadget.Valid() && gadget !in Repr && this !in Repr && Sound()
    }

    ghost function View(): Node reads this, gadget {
      Node(n, f, model, hasDecided, reachedDecision, gadget.View(), deliverDecision)
    }

    constructor (n: nat, f: nat)
      ensures Valid() && fresh(gadget) && fresh(Repr) && View() == InitialNode(n, f)
    {
      this.n, this.f := n, f;
      gadget := new Termination(n, f);
      var first := new RoundInstance(n, f, FirstRound);
      rounds, model := map[FirstRound := first], map[FirstRound := FreshRound(n, f, FirstRound)];
      hasDecided, reachedDecision, deliverDecision := false, [], [];
      Repr := {first, first.bca};
    }

    // All but round r show what the model says.
    ghost predicate SoundBut(r: nat)
      reads this`rounds, this`model, this`Repr, Repr
    {
      LaidOut() && forall s :: s in rounds && s != r ==> rounds[s].Shows(model[s])
    }

    // The model follows what the object of round r did.
    ghost method Note(r: nat, round: RoundInstance)
      requires SoundBut(r) && r in rounds && round == rounds[r] && round.Valid()
      modifies this`model
      ensures Sound() && model == old(model)[r := round.view]
    {
      model := model[r := round.view];
    }

    // A new round comes in, and the others stay.
    method Adopt(r: nat, round: RoundInstance)
      requires Sound() && this !in Repr && r !in rounds && round !in Repr && round.bca !in Repr && round.Shows(FreshRound(n, f, r))
      modifies this`rounds, this`model, this`Repr
      ensures Sound() && Repr == old(Repr) + {round, round.bca} && rounds == old(rounds)[r := round]
      ensures model == old(model)[r := FreshRound(n, f, r)]
    {
      LaidMore(rounds, Repr, r, round);
      rounds, model, Repr := rounds[r := round], model[r := FreshRound(n, f, r)], Repr + {round, round.bca};
    }

    method NewRound(r: nat) returns (round: RoundInstance)
      requires Sound() && this !in Repr && r !in rounds
      modifies this`rounds, this`model, this`Repr
      ensures Sound() && fresh(Repr - old(Repr)) && rounds == old(rounds)[r := round] && round.coinReceive == Chan([], 0)
      ensures model == old(model)[r := FreshRound(n, f, r)]
    {
      round := new RoundInstance(n, f, r);
      Adopt(r, round);
    }

    // getRound: a round comes into being the first time it is named.
    method GetRound(r: nat)
      requires Sound() && this !in Repr
      modifies this`rounds, this`model, this`Repr
      ensures Sound() && this !in Repr && fresh(Repr - old(Repr)) && r in rounds
      ensures model == old(model)[r := RoundOf(old(View()), r)] && model[r] == RoundOf(old(View()), r)
      ensures Coins(r) == old(Coins(r))
    {
      if r !in rounds {
        var _ := NewRound(r);
      }
    }

    // A proposal, a message or a goroutine step in one round.
    method Do(r: nat, a: Action)
      requires Valid() && Can(RoundOf(View(), r).bca, a)
      modifies this`rounds, this`model, this`Repr, Repr
      ensures Valid() && fresh(Repr - old(Repr))
      ensures View() == Act(old(View()), r, a)
    {
      DoNamed(r, a);
      assert View() == WithRound(old(View()), r, rounds[r].view);
    }

    method DoNamed(r: nat, a: Action)
      requires Sound() && this !in Repr && Can(RoundOf(View(), r).bca, a)
      modifies this`rounds, this`model, this`Repr, Repr
      ensures Sound() && this !in Repr && fresh(Repr - old(Repr))
      ensures r in rounds && model == old(model)[r := rounds[r].view]
      ensures rounds[r].view == Acted(RoundOf(old(View()), r), a)
    {
      ghost var first := RoundOf(View(), r);
      GetRound(r);
      assert model[r] == first;
      DoRound(r, rounds[r], a);
      Overwritten(old(model), r, first, rounds[r].view);
    }

    method DoRound(r: nat, round: RoundInstance, a: Action)
      requires Sound() && this !in Repr && r in rounds && round == rounds[r] && Can(model[r].bca, a)
      modifies this`model, round`view, round.bca
      ensures Sound() && model == old(model)[r := round.view] && round.view == Acted(old(round.view), a)
    {
      assert round.Shows(model[r]);
      round.Do(a);
      Note(r, round);
    }

    // execRound of one round takes the decision.
    method ReadDecision(r: nat)
      requires Valid() && CanRead(View(), r)
      modifies this`model, Repr
      ensures Valid() && Repr == old(Repr)
      ensures View() == AgreementNode.ReadDecision(old(View()), r)
    {
      assert r in rounds;
      ReadRound(r, rounds[r]);
      assert View() == WithRound(old(View()), r, rounds[r].view);
    }

    method ReadRound(r: nat, round: RoundInstance)
      requires Sound() && this !in Repr && r in rounds && round == rounds[r]
      requires model[r].exec.AwaitDecision? && model[r].bca.decide.output != []
      modifies this`model, round`view, round`exec
      ensures Sound() && model == old(model)[r := round.view]
      ensures round.view == old(round.view).(exec := AwaitCoin(old(round.view).bca.decide.output[0]))
    {
      assert round.Shows(model[r]);
      round.ReadDecision();
      Note(r, round);
    }

    // ---- the coin

    // The coins handed to round r so far.
    ghost function Coins(r: nat): Chan<int> reads this`rounds, Repr, this`Repr
      requires Laid(rounds, Repr)
    {
      if r in rounds then rounds[r].coinReceive else Chan([], 0)
    }

    // submitCoin hands the coin to its round, decided or not, and waits there.
    method SubmitCoin(coin: int, r: nat) returns (ok: bool)
      requires Valid()
      modifies this`rounds, this`model, this`Repr, Repr
      ensures Valid() && fresh(Repr - old(Repr)) && ok == IsBit(coin)
      ensures View() == WithRound(old(View()), r, RoundOf(old(View()), r))
      ensures Coins(r) == if ok then old(Coins(r)).Send(coin) else old(Coins(r))
    {
      ok := OfferCoin(coin, r);
      assert View() == WithRound(old(View()), r, RoundOf(old(View()), r));
    }

    method OfferCoin(coin: int, r: nat) returns (ok: bool)
      requires Sound() && this !in Repr
      modifies this`rounds, this`model, this`Repr, Repr
      ensures Sound() && this !in Repr && fresh(Repr - old(Repr)) && ok == IsBit(coin)
      ensures model == old(model)[r := RoundOf(old(View()), r)]
      ensures Coins(r) == if ok then old(Coins(r)).Send(coin) else old(Coins(r))
    {
      GetRound(r);
      ok := HandCoin(r, rounds[r], coin);
    }

    method HandCoin(r: nat, round: RoundInstance, coin: int) returns (ok: bool)
      requires Sound() && this !in Repr && r in rounds && round == rounds[r]
      modifies round`coinReceive
      ensures Sound() && ok == IsBit(coin)
      ensures round.coinReceive == if ok then old(round.coinReceive).Send(coin) else old(round.coinReceive)
    {
      assert round.Shows(model[r]);
      ok := round.SubmitCoin(coin);
    }

    // Once the round has both, submitCoin goes on: it decides, or proposes to the next round.
    method FinishRound(r: nat) returns (coin: int)
      requires Valid() && r in rounds && rounds[r].exec.AwaitCoin? && rounds[r].coinReceive.Ready()
      modifies this`rounds, this`model, this`Repr, this`hasDecided, this`reachedDecision, Repr
      ensures Valid() && fresh(Repr - old(Repr)) && coin == old(rounds[r].coinReceive.Head())
      ensures View() == AgreementNode.SubmitCoin(old(View()), r, coin)
      ensures hasDecided <==> old(hasDecided) || old(rounds[r].exec.dec) == coin
      ensures reachedDecision == old(reachedDecision) + if hasDecided && !old(hasDecided) then [coin] else []
    {
      ghost var x := View();
      var result;
      coin, result := CloseNamed(r);
      Proceed(r, coin, result);
      FinishedRound(x, r, coin);
    }

    method CloseNamed(r: nat) returns (coin: int, result: Transition)
      requires Valid() && r in rounds && rounds[r].exec.AwaitCoin? && rounds[r].coinReceive.Ready()
      modifies this`model, Repr
      ensures Valid() && Repr == old(Repr) && IsBit(coin) && coin == old(rounds[r].coinReceive.Head())
      ensures var round := RoundOf(old(View()), r);
              && round.exec.AwaitCoin? && result == RoundResult(round.exec.dec, coin)
              && (result.decided <==> old(rounds[r].exec.dec) == coin) && (result.decided ==> result.estimate == coin)
              && View() == WithRound(old(View()), r, Closed(round, coin))
    {
      assert rounds[r].Shows(model[r]);
      coin, result := CloseRound(r, rounds[r]);
      assert View() == WithRound(old(View()), r, rounds[r].view);
    }

    method Proceed(r: nat, coin: int, result: Transition)
      requires Valid() && IsBit(coin)
      modifies this`rounds, this`model, this`Repr, this`hasDecided, this`reachedDecision, Repr
      ensures Valid() && fresh(Repr - old(Repr))
      ensures View() == Proceeded(old(View()), r, coin, result)
      ensures hasDecided == (old(hasDecided) || result.decided)
      ensures reachedDecision == old(reachedDecision) + if hasDecided && !old(hasDecided) then [result.estimate] else []
    {
      if result.decided && !hasDecided {
        hasDecided := true;
        reachedDecision := reachedDecision + [result.estimate];
      } else {
        Do(r + 1, Start(result.estimate, coin));
      }
    }

    method CloseRound(r: nat, round: RoundInstance) returns (coin: int, result: Transition)
      requires Sound() && this !in Repr && r in rounds && round == rounds[r]
      requires round.exec.AwaitCoin? && round.coinReceive.Ready()
      modifies this`model, round`view, round`exec, round`coinReceive
      ensures Sound() && model == old(model)[r := round.view]
      ensures IsBit(coin) && coin == old(round.coinReceive.Head()) && round.coinReceive == old(round.coinReceive).Take()
      ensures round.view == Closed(old(round.view), coin) && result == RoundResult(old(round.exec).dec, coin)
    {
      assert round.Shows(model[r]);
      coin, result := round.TakeCoin();
      Note(r, round);
    }

    // ---- decisions

    method SubmitDecision(decision: int, sender: Id) returns (ok: bool)
      requires Valid()
      modifies gadget
      ensures Valid() && View() == Report(old(View()), decision, sender)
      ensures ok == ReportAccepted(old(View()).gadget, decision, sender)
    {
      ok := gadget.SubmitDecision(decision, sender);
    }

    // `adopted` is the receive that the `select` chose.
    method ReachDecision(adopted: bool)
      requires Valid() && CanDeliver(View(), adopted)
      modifies this`deliverDecision
      ensures Valid() && View() == Deliver(old(View()), adopted)
    {
      var decision := if adopted then gadget.deliverDecision[0] else reachedDecision[0];
      deliverDecision := deliverDecision + [decision];
    }
  }
}
