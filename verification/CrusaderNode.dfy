/** One node of a Binding Crusader Agreement, as a state machine.

    Two variants run the same machine: `Internal` (ivbca, the first round of an agreement) and
    `External` (evbca, every later round). Each buffered Go channel is a log of everything ever sent
    plus the number of items taken, so its length is bounded by comparing the log with the capacity.
    A message handler is one step; each of the three goroutines takes a step only when a channel it
    waits on is not empty, and the choice a `select` makes is left free. */
module CrusaderNode {
  import opened Quorums

  const Bot := 2

  predicate IsBit(v: int) {
    v == 0 || v == 1
  }

  datatype Chan<T> = Chan(sent: seq<T>, taken: nat) {
    predicate Ready() {
      taken < |sent|
    }
    function Head(): T
      requires Ready()
    {
      sent[taken]
    }
    function Send(x: T): Chan<T> {
      Chan(sent + [x], taken)
    }
    function Take(): Chan<T> {
      Chan(sent, taken + 1)
    }
  }

  // The two- and three-element slices of the node, indexed by a value, or by a value or bot.
  datatype PerBit<T> = PerBit(zero: T, one: T) {
    function At(v: int): T {
      if v == 0 then zero else one
    }
    function Put(v: int, x: T): PerBit<T> {
      if v == 0 then PerBit(x, one) else PerBit(zero, x)
    }
  }

  datatype PerOutcome<T> = PerOutcome(zero: T, one: T, bot: T) {
    function At(v: int): T {
      if v == 0 then zero else if v == 1 then one else bot
    }
    function Put(v: int, x: T): PerOutcome<T> {
      if v == 0 then PerOutcome(x, one, bot)
      else if v == 1 then PerOutcome(zero, x, bot)
      else PerOutcome(zero, one, x)
    }
  }

  datatype Variant = Internal | External

  // Program counters of waitToVote and waitToDecide; waitToBind only needs a flag.
  datatype Voter = AwaitFirst | AwaitSecond(first: int) | SawBoth | Unblocked
  datatype Decider = AwaitSignal | AwaitMore | Decided

  // An accepted call of propose.
  datatype Proposal = Proposal(est: int, coin: int)

  // The fields of the node, grouped by the stage of the protocol they belong to.
  datatype EchoStage = EchoStage(
    sent: PerBit<bool>,        // sentEchoes
    from: PerBit<set<Id>>,     // echoes
    bcast: seq<int>,           // bcastEchoChan
    approve: Chan<int>,        // approveValChan
    extValid: seq<int>)        // outputExternalValidChan

  datatype VoteStage = VoteStage(
    voter: Voter,
    bcast: seq<int>,           // bcastVoteChan
    from: PerBit<set<Id>>,     // voted (ivbca), votes (evbca)
    bindBot: Chan<()>,
    bindVal: Chan<int>)

  datatype BindStage = BindStage(
    done: bool,                // waitToBind has bound
    bcast: seq<int>,           // bcastBindChan
    from: PerOutcome<set<Id>>, // bound (ivbca), binds (evbca)
    termBot: Chan<()>,
    termVal: Chan<int>)

  datatype DecideStage = DecideStage(
    decider: Decider,
    output: seq<int>,          // outputDecision
    unblock: Chan<()>)

  datatype State = State(
    variant: Variant,
    n: nat,
    f: nat,
    proposals: seq<Proposal>,  // history: every proposal that was not refused
    echo: EchoStage,
    vote: VoteStage,
    bind: BindStage,
    decide: DecideStage)
  {
    function Quorum(): int {
      n - f
    }
  }

  function Fresh(variant: Variant, n: nat, f: nat): State {
    State(variant, n, f, [],
          EchoStage(PerBit(false, false), PerBit({}, {}), [], Chan([], 0), []),
          VoteStage(AwaitFirst, [], PerBit({}, {}), Chan([], 0), Chan([], 0)),
          BindStage(false, [], PerOutcome({}, {}, {}), Chan([], 0), Chan([], 0)),
          DecideStage(AwaitSignal, [], Chan([], 0)))
  }

  // ---- propose

  predicate ProposalValid(variant: Variant, est: int, coin: int) {
    match variant
    case Internal => IsBit(est) && coin == Bot
    case External => 0 <= est <= Bot && IsBit(coin)
  }

  function EchoOnce(e: EchoStage, v: int): EchoStage {
    if e.sent.At(v) then e else e.(sent := e.sent.Put(v, true), bcast := e.bcast + [v])
  }

  function Approve(e: EchoStage, v: int): EchoStage {
    e.(approve := e.approve.Send(v))
  }

  function Propose(s: State, est: int, coin: int): State {
    if !ProposalValid(s.variant, est, coin) then s
    else
      var t := s.(proposals := s.proposals + [Proposal(est, coin)]);
      if s.variant == External && est == coin then // fastForward
        t.(echo := Approve(t.echo.(sent := t.echo.sent.Put(est, true)), est),
           vote := t.vote.(bindVal := t.vote.bindVal.Send(est)))
      else if s.variant == External && est == Bot then // voteOnCoin
        t.(echo := Approve(t.echo.(sent := PerBit(true, true)), coin))
      else
        t.(echo := EchoOnce(t.echo, est))
  }

  // ---- message handlers

  predicate EchoAccepted(e: EchoStage, v: int, from: Id) {
    IsBit(v) && from !in e.from.At(v)
  }

  function CountEcho(variant: Variant, n: nat, f: nat, e: EchoStage, v: int, from: Id): EchoStage {
    var e1 := e.(from := e.from.Put(v, e.from.At(v) + {from}));
    var count := |e1.from.At(v)|;
    var e2 := if count == f + 1 then EchoOnce(e1, v) else e1;
    if count != n - f then e2
    else Approve(if variant == Internal then e2.(extValid := e2.extValid + [v]) else e2, v)
  }

  function SubmitEcho(s: State, v: int, from: Id): State {
    if !EchoAccepted(s.echo, v, from) then s
    else s.(echo := CountEcho(s.variant, s.n, s.f, s.echo, v, from))
  }

  predicate VoteAccepted(w: VoteStage, v: int, from: Id) {
    IsBit(v) && from !in w.from.zero && from !in w.from.one
  }

  function CountVote(q: int, w: VoteStage, v: int, from: Id): VoteStage {
    var w1 := w.(from := w.from.Put(v, w.from.At(v) + {from}));
    if |w1.from.At(v)| == q && |w1.from.At(1 - v)| < q
    then w1.(bindVal := w1.bindVal.Send(v))
    else w1
  }

  function SubmitVote(s: State, v: int, from: Id): State {
    if !VoteAccepted(s.vote, v, from) then s
    else s.(vote := CountVote(s.Quorum(), s.vote, v, from))
  }

  // evbca refuses a bind of bot; ivbca counts it like a value.
  predicate BindAccepted(variant: Variant, b: BindStage, v: int, from: Id) {
    && (IsBit(v) || (v == Bot && variant == Internal))
    && from !in b.from.zero && from !in b.from.one && from !in b.from.bot
  }

  function Total(from: PerOutcome<set<Id>>): nat {
    |from.zero| + |from.one| + |from.bot|
  }

  function CountBind(q: int, b: BindStage, v: int, from: Id): BindStage {
    var b1 := b.(from := b.from.Put(v, b.from.At(v) + {from}));
    if |b1.from.At(v)| == q then b1.(termVal := b1.termVal.Send(v))
    else if Total(b1.from) == q then b1.(termBot := b1.termBot.Send(()))
    else b1
  }

  function SubmitBind(s: State, v: int, from: Id): State {
    if !BindAccepted(s.variant, s.bind, v, from) then s
    else s.(bind := CountBind(s.Quorum(), s.bind, v, from))
  }

  // ---- goroutines

  datatype Job = VoteFirst | VoteSecond | VoteUnblock | BindBot | BindVal | DecideVal | DecideBot

  predicate Enabled(s: State, j: Job) {
    match j
    case VoteFirst => s.vote.voter.AwaitFirst? && s.echo.approve.Ready()
    case VoteSecond => s.vote.voter.AwaitSecond? && s.echo.approve.Ready()
    case VoteUnblock => s.variant == Internal && s.vote.voter.AwaitSecond? && s.decide.unblock.Ready()
    case BindBot => !s.bind.done && s.vote.bindBot.Ready()
    case BindVal => !s.bind.done && s.vote.bindVal.Ready()
    case DecideVal => !s.decide.decider.Decided? && s.bind.termVal.Ready()
    case DecideBot => !s.decide.decider.Decided? && s.bind.termBot.Ready()
  }

  function Emit(d: DecideStage, v: int): DecideStage {
    DecideStage(Decided, d.output + [v], d.unblock.Send(()))
  }

  function BindOn(b: BindStage, v: int): BindStage {
    b.(done := true, bcast := b.bcast + [v])
  }

  function Work(s: State, j: Job): State
    requires Enabled(s, j)
  {
    match j
    case VoteFirst =>
      var first := s.echo.approve.Head();
      var e := s.echo.(approve := s.echo.approve.Take());
      s.(echo := if s.variant == External then e.(extValid := e.extValid + [first]) else e,
         vote := s.vote.(voter := AwaitSecond(first), bcast := s.vote.bcast + [first]))
    case VoteSecond =>
      // ivbca stops at the second approval whatever it is; evbca loops until the other value.
      var v, first := s.echo.approve.Head(), s.vote.voter.first;
      var e := s.echo.(approve := s.echo.approve.Take());
      if s.variant == External && v == first then s.(echo := e)
      else
        s.(echo := if s.variant == External then e.(extValid := e.extValid + [1 - first]) else e,
           vote := s.vote.(voter := SawBoth, bindBot := s.vote.bindBot.Send(())),
           bind := s.bind.(termBot := s.bind.termBot.Send(())))
    case VoteUnblock =>
      s.(vote := s.vote.(voter := Unblocked), decide := s.decide.(unblock := s.decide.unblock.Take()))
    case BindBot =>
      s.(vote := s.vote.(bindBot := s.vote.bindBot.Take()), bind := BindOn(s.bind, Bot))
    case BindVal =>
      s.(vote := s.vote.(bindVal := s.vote.bindVal.Take()), bind := BindOn(s.bind, s.vote.bindVal.Head()))
    case DecideVal =>
      s.(bind := s.bind.(termVal := s.bind.termVal.Take()), decide := Emit(s.decide, s.bind.termVal.Head()))
    case DecideBot =>
      s.(bind := s.bind.(termBot := s.bind.termBot.Take()),
         decide := if s.decide.decider.AwaitSignal? then s.decide.(decider := AwaitMore) else Emit(s.decide, Bot))
  }

  // ---- everything a node can do

  datatype Message = EchoMsg(v: int) | VoteMsg(v: int) | BindMsg(v: int)

  datatype Action =
    | Start(est: int, coin: int)
    | Receive(from: Id, msg: Message)
    | Run(job: Job)

  predicate Can(s: State, a: Action) {
    a.Run? ==> Enabled(s, a.job)
  }

  function Handle(s: State, from: Id, m: Message): State {
    match m
    case EchoMsg(v) => SubmitEcho(s, v, from)
    case VoteMsg(v) => SubmitVote(s, v, from)
    case BindMsg(v) => SubmitBind(s, v, from)
  }

  function Apply(s: State, a: Action): State
    requires Can(s, a)
  {
    match a
    case Start(est, coin) => Propose(s, est, coin)
    case Receive(from, m) => Handle(s, from, m)
    case Run(j) => Work(s, j)
  }

  // What a node has broadcast, and what it has counted from a sender.
  predicate Sent(s: State, m: Message) {
    match m
    case EchoMsg(v) => v in s.echo.bcast
    case VoteMsg(v) => v in s.vote.bcast
    case BindMsg(v) => v in s.bind.bcast
  }

  predicate Counted(s: State, from: Id, m: Message) {
    match m
    case EchoMsg(v) => IsBit(v) && from in s.echo.from.At(v)
    case VoteMsg(v) => IsBit(v) && from in s.vote.from.At(v)
    case BindMsg(v) => 0 <= v <= Bot && from in s.bind.from.At(v)
  }
}
