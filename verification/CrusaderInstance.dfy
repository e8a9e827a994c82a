/** The crusader agreement as the program runs it: an object whose handlers and goroutines update its
    slices, counters and channels in place. They are the components of the four stage records of
    CrusaderNode, which also gives their names in the program. Every method takes the abstract state exactly
    where the state machine does, so the invariants and theorems about that machine hold of it. */
module CrusaderInstance {
  import opened Quorums
  import opened CrusaderNode

  class Crusader {
    const variant: Variant
    const n: nat
    const f: nat
    var echo: EchoStage
    var vote: VoteStage
    var bind: BindStage
    var decide: DecideStage
    var prevCoin: seq<int>             // prevCoinChan, which nothing reads
    var inputExternalValid: seq<int>   // inputExternalValidChan, which nothing reads
    ghost var proposals: seq<Proposal>

    ghost function View(): State
      reads this`echo, this`vote, this`bind, this`decide, this`proposals
    {
      State(variant, n, f, proposals, echo, vote, bind, decide)
    }

    constructor (variant: Variant, n: nat, f: nat)
      ensures View() == Fresh(variant, n, f) && prevCoin == [] && inputExternalValid == []
    {
      this.variant, this.n, this.f := variant, n, f;
      echo := EchoStage(PerBit(false, false), PerBit({}, {}), [], Chan([], 0), []);
      vote := VoteStage(AwaitFirst, [], PerBit({}, {}), Chan([], 0), Chan([], 0));
      bind := BindStage(false, [], PerOutcome({}, {}, {}), Chan([], 0), Chan([], 0));
      decide := DecideStage(AwaitSignal, [], Chan([], 0));
      prevCoin, inputExternalValid, proposals := [], [], [];
    }

    // ---- propose

    method Propose(est: int, coin: int) returns (ok: bool)
      modifies this`proposals, this`echo, this`vote, this`prevCoin
      ensures View() == CrusaderNode.Propose(old(View()), est, coin)
      ensures ok == ProposalValid(variant, est, coin)
      ensures prevCoin == old(prevCoin) + if ok && variant == External && est != coin && est != Bot then [coin] else []
      ensures ok && est != coin && est != Bot ==>
                && echo.sent.At(est) && echo.bcast == old(echo.bcast) + (if old(echo).sent.At(est) then [] else [est])
    {
      ok := if variant == Internal then IsBit(est) && coin == Bot else 0 <= est <= Bot && IsBit(coin);
      if ok {
        proposals := proposals + [Proposal(est, coin)];
        if variant == External && est == coin {
          FastForward(est);
        } else if variant == External && est == Bot {
          VoteOnCoin(coin);
        } else {
          if !echo.sent.At(est) {
            BroadcastEcho(est);
          }
          if variant == External {
            prevCoin := prevCoin + [coin];
          }
        }
      }
    }

    method SubmitExternallyValid(val: int)
      modifies this`inputExternalValid
      ensures inputExternalValid == old(inputExternalValid) + if variant == External then [val] else []
    {
      if variant == External {
        inputExternalValid := inputExternalValid + [val];
      }
    }

    method BroadcastEcho(v: int)
      requires IsBit(v) && !echo.sent.At(v)
      modifies this`echo
      ensures echo == EchoOnce(old(echo), v)
    {
      echo := echo.(sent := echo.sent.Put(v, true));
      echo := echo.(bcast := echo.bcast + [v]);
    }

    method FastForward(est: int)
      requires IsBit(est)
      modifies this`echo, this`vote
      ensures echo == Approve(old(echo).(sent := old(echo).sent.Put(est, true)), est)
      ensures vote == old(vote).(bindVal := old(vote).bindVal.Send(est))
    {
      echo := echo.(sent := echo.sent.Put(est, true));
      echo := echo.(approve := echo.approve.Send(est));
      vote := vote.(bindVal := vote.bindVal.Send(est));
    }

    method VoteOnCoin(coin: int)
      requires IsBit(coin)
      modifies this`echo
      ensures echo == Approve(old(echo).(sent := PerBit(true, true)), coin)
    {
      echo := echo.(sent := echo.sent.Put(coin, true));
      echo := echo.(sent := echo.sent.Put(1 - coin, true));
      echo := echo.(approve := echo.approve.Send(coin));
    }

    // ---- message handlers

    method SubmitEcho(v: int, sender: Id) returns (ok: bool)
      modifies this`echo
      ensures View() == CrusaderNode.SubmitEcho(old(View()), v, sender)
      ensures ok == EchoAccepted(old(echo), v, sender)
      ensures ok <==> (v == 0 && sender !in old(echo).from.zero) || (v == 1 && sender !in old(echo).from.one)
      ensures ok ==> echo.from == old(echo).from.Put(v, old(echo).from.At(v) + {sender})
    {
      if !IsBit(v) {
        return false;
      } else if sender in echo.from.At(v) {
        return false;
      }
      echo := echo.(from := echo.from.Put(v, echo.from.At(v) + {sender}));
      var countEcho := |echo.from.At(v)|;
      if countEcho == f + 1 && !echo.sent.At(v) {
        BroadcastEcho(v);
      }
      if countEcho == n - f {
        if variant == Internal {
          echo := echo.(extValid := echo.extValid + [v]);
        }
        echo := echo.(approve := echo.approve.Send(v));
      }
      ok := true;
    }

    method SubmitVote(v: int, sender: Id) returns (ok: bool)
      modifies this`vote
      ensures View() == CrusaderNode.SubmitVote(old(View()), v, sender)
      ensures ok == VoteAccepted(old(vote), v, sender)
      ensures ok <==> (v == 0 || v == 1) && sender !in old(vote).from.zero && sender !in old(vote).from.one
      ensures ok ==> vote.from == old(vote).from.Put(v, old(vote).from.At(v) + {sender})
    {
      if !IsBit(v) {
        return false;
      } else if sender in vote.from.zero || sender in vote.from.one {
        return false;
      }
      vote := vote.(from := vote.from.Put(v, vote.from.At(v) + {sender}));
      if |vote.from.At(v)| == n - f && |vote.from.At(1 - v)| < n - f {
        vote := vote.(bindVal := vote.bindVal.Send(v));
      }
      ok := true;
    }

    method SubmitBind(v: int, sender: Id) returns (ok: bool)
      modifies this`bind
      ensures View() == CrusaderNode.SubmitBind(old(View()), v, sender)
      ensures ok == BindAccepted(variant, old(bind), v, sender)
      ensures ok <==> (v == 0 || v == 1 || (v == 2 && variant == Internal))
                      && sender !in old(bind).from.zero && sender !in old(bind).from.one && sender !in old(bind).from.bot
      ensures ok ==> bind.from == old(bind).from.Put(v, old(bind).from.At(v) + {sender})
    {
      if v > Bot || v < 0 || (variant == External && v == Bot) {
        return false;
      } else if sender in bind.from.zero || sender in bind.from.one || sender in bind.from.bot {
        return false;
      }
      NoteBind(v, sender);
      ok := true;
    }

    method NoteBind(v: int, sender: Id)
      requires 0 <= v <= Bot
      modifies this`bind
      ensures bind == CountBind(n - f, old(bind), v, sender) && bind.from == old(bind).from.Put(v, old(bind).from.At(v) + {sender})
    {
      bind := bind.(from := bind.from.Put(v, bind.from.At(v) + {sender}));
      if |bind.from.At(v)| == n - f {
        bind := bind.(termVal := bind.termVal.Send(v));
      } else if |bind.from.zero| + |bind.from.one| + |bind.from.bot| == n - f {
        bind := bind.(termBot := bind.termBot.Send(()));
      }
    }

    // ---- goroutines, one receive at a time; `job` is the receive that a `select` chose

    method Step(job: Job)
      requires Enabled(View(), job)
      modifies this`echo, this`vote, this`bind, this`decide
      ensures View() == Work(old(View()), job)
    {
      if job.VoteFirst? || job.VoteSecond? || job.VoteUnblock? {
        WaitToVote(job);
      } else if job.BindBot? || job.BindVal? {
        WaitToBind(job);
      } else {
        WaitToDecide(job);
      }
    }

    method WaitToVote(job: Job)
      requires Enabled(View(), job) && (job.VoteFirst? || job.VoteSecond? || job.VoteUnblock?)
      modifies this`echo, this`vote, this`bind, this`decide
      ensures View() == Work(old(View()), job)
    {
      match job {
        case VoteFirst => VoteOnFirst();
        case VoteSecond => VoteOnSecond();
        case VoteUnblock =>
          decide := decide.(unblock := decide.unblock.Take());
          vote := vote.(voter := Unblocked);
      }
    }

    method VoteOnFirst()
      requires Enabled(View(), VoteFirst)
      modifies this`echo, this`vote
      ensures View() == Work(old(View()), VoteFirst)
    {
      var first := echo.approve.Head();
      echo := echo.(approve := echo.approve.Take());
      if variant == External {
        echo := echo.(extValid := echo.extValid + [first]);
      }
      vote := vote.(bcast := vote.bcast + [first]);
      vote := vote.(voter := AwaitSecond(first));
    }

    method VoteOnSecond()
      requires Enabled(View(), VoteSecond)
      modifies this`echo, this`vote, this`bind
      ensures View() == Work(old(View()), VoteSecond)
    {
      var first, val := vote.voter.first, echo.approve.Head();
      echo := echo.(approve := echo.approve.Take());
      // evbca loops until the value other than the first is approved too
      if variant == Internal || val != first {
        if variant == External {
          echo := echo.(extValid := echo.extValid + [1 - first]);
        }
        vote := vote.(bindBot := vote.bindBot.Send(()));
        bind := bind.(termBot := bind.termBot.Send(()));
        vote := vote.(voter := SawBoth);
      }
    }

    method WaitToBind(job: Job)
      requires Enabled(View(), job) && (job.BindBot? || job.BindVal?)
      modifies this`vote, this`bind
      ensures View() == Work(old(View()), job)
    {
      var value := Bot;
      if job.BindBot? {
        vote := vote.(bindBot := vote.bindBot.Take());
      } else {
        value := vote.bindVal.Head();
        vote := vote.(bindVal := vote.bindVal.Take());
      }
      bind := bind.(bcast := bind.bcast + [value]);
      bind := bind.(done := true);
    }

    method WaitToDecide(job: Job)
      requires Enabled(View(), job) && (job.DecideVal? || job.DecideBot?)
      modifies this`bind, this`decide
      ensures View() == Work(old(View()), job)
    {
      var decision := Bot;
      if job.DecideVal? {
        decision := bind.termVal.Head();
        bind := bind.(termVal := bind.termVal.Take());
      } else {
        bind := bind.(termBot := bind.termBot.Take());
        if decide.decider.AwaitSignal? {
          decide := decide.(decider := AwaitMore);
          return;
        }
      }
      decide := decide.(output := decide.output + [decision]);
      decide := decide.(unblock := decide.unblock.Send(()));
      decide := decide.(decider := Decided);
    }
  }
}
