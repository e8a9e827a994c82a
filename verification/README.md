# Model and proofs of a BKR common subset stack

The repository lets `n` nodes, at most `f` of them Byzantine with `n >= 3f + 1`, agree on a common subset of
their inputs. Each input is spread by a reliable broadcast, each is accepted or rejected by an asynchronous
binary agreement, and the binary agreement draws its coins from threshold-shared randomness. This project
models the four layers and proves what they keep over every run.

The parts, bottom up:

* **Counting** (`Quorums`). A group of `n` members, some faulty, and the intersection arguments.
* **Crusader agreement** (`CrusaderNode`, `CrusaderInvariants`, `CrusaderRuns`, `CrusaderSafety`,
  `CrusaderProgress`, `CrusaderStretches`, `CrusaderCapacity`, `CrusaderBlocking`, `CrusaderUndecided`,
  `CrusaderHistory`, `CrusaderSettling`, `CrusaderInstance`). One state machine with two variants: `Internal` is
  `ivbca`, the first round; `External` is `evbca`, every later round.
* **Binary agreement** (`AgreementNode`, `AgreementRuns`, `AgreementRounds`, `AgreementDecisions`,
  `AgreementHistory`, `AgreementStretches`, `AgreementDeciding`, `AgreementBlocking`, `AgreementBlockingNodes`,
  `AgreementInstance`). Rounds chained by a common coin, and the gadget that adopts a decision reported by `f + 1`
  peers.
* **Reliable broadcast** (`BroadcastNode`, `BroadcastRuns`, `BroadcastSettling`, `BroadcastInstance`).
* **Common subset** (`CommonSubsetNode`, `CommonSubsetRuns`, `CommonSubsetLists`, `CommonSubsetHistory`,
  `CommonSubsetSettling`, `CommonSubsetInstance`), over the contracts of the two layers below it.
* **Coins** (`PrimeField`, `Lagrange`, `CoinChannel`, `CommitmentCodec`). Recovery in the exponent, the buffer for
  early shares, the dealer's byte format.

For each protocol the `...Node` module is one node as a state machine, `...Runs` the group (any correct node may
take any enabled step; a message in a correct node's name must have been broadcast by it; a faulty node may send
anything to anyone; messages arrive in any order and any number of times), and `...Instance` the same node as an
object whose methods update its fields in place, each proved to make exactly one transition of the state machine.
The `...History` modules (and `BroadcastRuns.CountersAreFirsts`) say what a node is from the messages and events that
made it, without naming its transitions; the `...Settling` and `...Deciding` modules show that the settled states the
progress theorems speak of are reached, from every reachable state of a first round, a broadcast or a common subset.

## Findings

Four statements one might expect turn out to need a condition, and each is proved together with its exact limit.

* **A crusader round may settle with correct nodes undecided.** `CrusaderProgress.NeverStuck` gives one decision in
  every settled state and `AllDecide` gives all of them when every node that left `waitToVote` through `unblockChan`
  had bound. `CrusaderUndecided.SomeNeverDecide` is a run of four nodes in which one leaves early and the two other
  correct nodes wait for ever; `DecidedExactly` says which nodes decide.
* **A later round may block for ever** on the one-place `bindValChan`, when a handler finds it full and
  `waitToBind` is over. `AgreementBlocking.CorrectNodesBlock` is a run of the whole agreement, with one faulty node
  among four and one coin for all, in which two correct nodes are blocked in their second round. The exact condition,
  at every point of every run, is `AgreementRounds.BlockedExactlyInRun`: the node fast-forwarded, has a vote quorum,
  and bound bot. The first round never blocks (`CrusaderCapacity.SendsNeverBlock`).
* **Output lists of the common subset can differ.** The broadcast instance id holds a nonce of the sender's choice
  (`byzantineReliableBroadcast/middleware.go:184-196`), so a faulty proposer can broadcast two inputs under one BKR
  id, and an acceptor keeps the first to arrive. Accepted positions always agree. With two correct nodes or more, the
  lists agree in every run exactly when no proposer broadcasts two different inputs, or fewer than n - f broadcast
  anything and nobody outputs (`CommonSubsetLists.SameListExactly`).
* **A failed toss loses shares.** When a node cannot prove its own share, the shares that came before the toss are
  not handed over, unless the coin is tossed again with success (`CoinChannel.OneTossOrder`, `HandedExactly`).

## Modelling choices

* Go channels are logs of what was ever sent with a count of what was taken. Message handlers and each receive of a
  goroutine are atomic steps. That loses no behaviour that matters: a goroutine only tests whether a channel holds
  something, so a finer interleaving is one of these steps done later. The choice in a `select` is free.
* The sends of the first round never block, which is proved. Those of later rounds are treated as if they never
  blocked, which only adds runs to the safety results.
* The coin is an arbitrary function of the round, equal at all correct nodes, with values 0 and 1. `Lagrange` is
  the arithmetic reason for its being common.
* Hashes used as counter keys are injective, so a message is its own key.
* The fields of a crusader agreement are grouped by stage into four records (`CrusaderNode` names each field's
  place in the program), both in the state machine and in the object that updates them.
* Two- and three-element slices indexed by a value are the records `PerBit` and `PerOutcome`; a Go map to `bool` used
  as a set is a set.
* "Settled" or "quiet" states stand for "eventually": everything correct nodes sent has been processed by all
  correct nodes, and no goroutine of a correct node has anything to take.

## Model

| member | source | states |
|---|---|---|
| `Quorums.QuorumsMeet` | config/config.properties:6-9 | With n >= 3f + 1, any two sets of n - f members share a correct node. |
| `Quorums.SomeCorrect` | config/config.properties:6-9 | Any f + 1 members include a correct one. |
| `CrusaderInvariants.ApplyInv` | asynchronousBinaryAgreement/internalValidityBCA.go:60-164 | Every handler and goroutine step of either variant keeps the local invariant: echoes, approvals, votes, binds and decisions are backed by exactly the counters that should back them, whatever peers send. |
| `CrusaderRuns.ReachableInv` | asynchronousBinaryAgreement/internalValidityBCA.go:60-164 | In every reachable state of the group, each counted message was broadcast by its sender if correct, and every echoed value was proposed by a correct node. |
| `CrusaderSafety.CrusaderAgreement` | asynchronousBinaryAgreement/internalValidityBCA.go:94-164 | In both variants, in every reachable state, no two correct nodes decide opposite binary values. |
| `CrusaderSafety.Unanimity` | asynchronousBinaryAgreement/externalValidityBCA.go:69-223 | In both variants, if all correct proposals carry estimate v, with any previous coins, no correct node votes, binds or decides anything but v. |
| `CrusaderSafety.BindsAgree` | asynchronousBinaryAgreement/internalValidityBCA.go:94-148 | No two correct first-round nodes bind opposite binary values. |
| `CrusaderSafety.Binding` | asynchronousBinaryAgreement/internalValidityBCA.go:94-164 | From any state in which a correct first-round node has decided, even bot, the binary value `Excluded` of that state is decided by no correct node in any continuation. |
| `CrusaderProgress.NeverStuck` | asynchronousBinaryAgreement/internalValidityBCA.go:60-164 | Every settled first-round state has a correct node that decided. |
| `CrusaderProgress.DecidedExactly` | asynchronousBinaryAgreement/internalValidityBCA.go:108-164 | In a settled state a correct node has decided if and only if it counted n - f binds. |
| `CrusaderProgress.BoundUnlessUnblocked` | asynchronousBinaryAgreement/internalValidityBCA.go:124-148 | In a settled state a correct node has bound, unless it decided and left waitToVote through unblockChan. |
| `CrusaderProgress.AllDecide` | asynchronousBinaryAgreement/internalValidityBCA.go:124-164 | In a settled state in which no correct node left through unblockChan before binding, all correct nodes have decided. |
| `CrusaderUndecided.SomeNeverDecide` | asynchronousBinaryAgreement/internalValidityBCA.go:124-164 | A reachable, settled state of four nodes with one correct node decided and the two others undecided: the condition of AllDecide cannot be dropped. |
| `CrusaderHistory.NodeIsItsHistory` | asynchronousBinaryAgreement/externalValidityBCA.go:69-223 | Over every action sequence of a node of either variant: q is counted for a vote or bind of v exactly if q's first valid vote or bind is v, and for an echo exactly if it sent one; and from those, which echoes, approvals, votes, binds, bot signals and decisions were made, and what each goroutine has taken. |
| `CrusaderHistory.WaitsExactly` | asynchronousBinaryAgreement/internalValidityBCA.go:124-164 | Which receives each goroutine can make next, from what it has received and what was sent: with two channels ready, a select can take either. |
| `CrusaderHistory.ProposalsAnswered` | asynchronousBinaryAgreement/externalValidityBCA.go:69-111 | In a later round, an estimate its coin contradicts is marked echoed, what is marked is broadcast unless a fast forward or a vote on the coin marked it, those approve the coin, and a fast forward hands the estimate to waitToBind. |
| `CrusaderSettling.CanSettle` | asynchronousBinaryAgreement/internalValidityBCA.go:60-164 | From every reachable first-round state in which all correct nodes have proposed, deliveries and goroutine steps lead to a settled state, in which some correct node has decided. |
| `CrusaderSettling.UnanimousDecide` | asynchronousBinaryAgreement/internalValidityBCA.go:60-164 | In a settled first-round state in which all correct proposals are v, every correct node has decided v, once. |
| `CrusaderSettling.UnanimousGroupCanDecide` | asynchronousBinaryAgreement/internalValidityBCA.go:60-164 | For every valid group and each value v, a settled state is reachable in which all correct nodes proposed v and all have decided v. |
| `CrusaderCapacity.SendsNeverBlock` | asynchronousBinaryAgreement/internalValidityBCA.go:34-164 | For every sequence of actions with at most n distinct senders, the sends ever made on each of the eleven channels stay within the capacity it was made with, so vote, bind and decision are sent at most once. |
| `CrusaderBlocking.BlockedExactly` | asynchronousBinaryAgreement/externalValidityBCA.go:98-143 | Over every run of a later-round node, the sends on bindValChan number the fast forwards plus one for a vote quorum, and the node is blocked (waitToBind over, more than one item left) if and only if that exceeds 1 after binding bot, or 2 after binding a value. |
| `CrusaderBlocking.StaysBlocked` | asynchronousBinaryAgreement/externalValidityBCA.go:197-207 | Whatever happens next, a blocked node stays blocked. |
| `CrusaderInstance.Crusader.constructor` | asynchronousBinaryAgreement/internalValidityBCA.go:34-58 | A new object is the initial state of its variant. |
| `CrusaderInstance.Crusader.Propose` | asynchronousBinaryAgreement/externalValidityBCA.go:69-88 | Accepts exactly the valid proposals of its variant and makes the machine's propose transition; an estimate that the coin neither confirms nor replaces is echoed unless it was, and in a later round the coin goes to prevCoinChan. |
| `CrusaderInstance.Crusader.SubmitExternallyValid` | asynchronousBinaryAgreement/externalValidityBCA.go:90-93 | A later round queues the value, the first round ignores it. |
| `CrusaderInstance.Crusader.FastForward` | asynchronousBinaryAgreement/externalValidityBCA.go:98-103 | Marks the estimate echoed, approves it and hands it to waitToBind. |
| `CrusaderInstance.Crusader.VoteOnCoin` | asynchronousBinaryAgreement/externalValidityBCA.go:106-111 | Marks both values echoed and approves the coin. |
| `CrusaderInstance.Crusader.SubmitEcho` | asynchronousBinaryAgreement/internalValidityBCA.go:75-92 | Counts the sender exactly if the value is a bit it has not echoed before, and makes the machine's echo transition. |
| `CrusaderInstance.Crusader.SubmitVote` | asynchronousBinaryAgreement/internalValidityBCA.go:94-106 | Counts the sender exactly if the value is a bit and it has not voted, and makes the machine's vote transition. |
| `CrusaderInstance.Crusader.SubmitBind` | asynchronousBinaryAgreement/externalValidityBCA.go:145-159 | Counts the sender exactly if the value is a bit, or in the first round bot, and it has not bound, and makes the machine's bind transition. |
| `CrusaderInstance.Crusader.WaitToVote` | asynchronousBinaryAgreement/externalValidityBCA.go:175-195 | Each receive of waitToVote, whichever select chose, is the machine's step; ivbca stops at any second approval, evbca at the other value. |
| `CrusaderInstance.Crusader.WaitToBind` | asynchronousBinaryAgreement/internalValidityBCA.go:138-148 | Either receive of waitToBind is the machine's step. |
| `CrusaderInstance.Crusader.WaitToDecide` | asynchronousBinaryAgreement/internalValidityBCA.go:150-164 | Either receive of waitToDecide is the machine's step: a value decides, the second bot signal decides bot. |
| `AgreementRuns.RunInv` | asynchronousBinaryAgreement/mmr.go:64-201 | At every point of every run, each round is a crusader agreement in its invariant, each later proposal follows from finishing the round before, and each report backs a decision. |
| `AgreementRuns.Locked` | asynchronousBinaryAgreement/mmr.go:100-112 | Once a correct node decides v in a round, every correct proposal in every later round carries v. |
| `AgreementRuns.SameDecision` | asynchronousBinaryAgreement/round.go:66-91 | Decisions reached in any two rounds by any two correct nodes are equal. |
| `AgreementRuns.BinaryAgreement` | asynchronousBinaryAgreement/mmr.go:192-201 | In every run, with any mix of round decisions and decisions adopted from f + 1 peers, no two correct nodes deliver different decisions, at whatever points of the run. |
| `AgreementRuns.BinaryValidity` | asynchronousBinaryAgreement/mmr.go:64-112 | If all correct proposals to the first round are v, every correct estimate of every round and every delivered decision is v. |
| `AgreementRuns.DecisionWasProposed` | asynchronousBinaryAgreement/internalValidityBCA.go:12-13 | Every delivered decision was proposed to the first round by a correct node. |
| `AgreementRounds.ProjectReachable` | asynchronousBinaryAgreement/mmr.go:64-148 | At every point of every run, each round, seen alone, is in a reachable state of a crusader agreement. |
| `AgreementRounds.FirstCoinSettles` | asynchronousBinaryAgreement/mmr.go:100-112 | Once some correct node has a first-round decision, even bot, one value is fixed whatever faulty nodes send next; if the first coin is the other value, every correct estimate of every later round, at every later point of the run, is the coin. |
| `AgreementRounds.FirstCoinDecided` | asynchronousBinaryAgreement/mmr.go:192-201 | In that case every decision delivered at any later point is the first coin. |
| `AgreementRounds.BlockedExactlyInRun` | asynchronousBinaryAgreement/externalValidityBCA.go:98-207 | At every point of every run of the agreement, a correct node is blocked in a later round if and only if it fast-forwarded to it, has a vote quorum and waitToBind took bot. |
| `AgreementHistory.RunHistory` | asynchronousBinaryAgreement/mmr.go:64-201 | At every point of every run each correct node is what its events say: each round performed exactly the actions addressed to it, was read and closed exactly once each by those events with the common coin, and proposed onward unless it decided first; reports count by first report; and the delivery is the reached or adopted decision. |
| `AgreementHistory.ReachedExactly` | asynchronousBinaryAgreement/mmr.go:100-112 | At every point of every run, a correct node has reached a decision if and only if some round of it closed with its coin equal to its decision v, and then exactly [v] was sent to reachedDecision. |
| `AgreementHistory.WaitsExactly` | asynchronousBinaryAgreement/round.go:66-91 | A round can be read exactly once, as soon as its crusader agreement has decided, whatever else was decided; it awaits the coin from then until it comes; and a decision can be delivered exactly if none was and one is there. |
| `AgreementHistory.LaterRoundsAnswer` | asynchronousBinaryAgreement/externalValidityBCA.go:69-111 | In every run, each later round of each correct node echoes or approves for each of its proposals, as ProposalsAnswered says. |
| `AgreementDeciding.CanDecide` | asynchronousBinaryAgreement/mmr.go:64-201 | In every group, for each v and every coin that is v in the first round, some run has all correct nodes propose v, reach v, deliver v, adopt v in the gadget and be notified of termination once. |
| `AgreementBlocking.CorrectNodesBlock` | asynchronousBinaryAgreement/externalValidityBCA.go:98-207 | A state of a run of the whole agreement, with one faulty node among four and one coin, in which two correct nodes are blocked in their second round. |
| `AgreementDecisions.GadgetExactly` | asynchronousBinaryAgreement/mmrTermination.go:53-76 | After any sequence of reports, each sender counts for the first valid decision it reported and no other; a decision was delivered, once, if and only if f + 1 senders count for it, and termination was notified, once, if and only if n - f senders count. |
| `AgreementDecisions.DecisionSendsNeverBlock` | asynchronousBinaryAgreement/mmr.go:44-62 | At every point of every run, reachedDecision, deliverDecision and both channels of the gadget were sent at most the one item they have room for; in particular the gadget never delivers two decisions. |
| `AgreementInstance.Termination.SubmitDecision` | asynchronousBinaryAgreement/mmrTermination.go:53-76 | With counters that count distinct senders per decision, refuses repeats and invalid decisions, delivers at exactly f + 1 and notifies at exactly n - f. |
| `AgreementInstance.RoundInstance.SubmitCoin` | asynchronousBinaryAgreement/round.go:85-91 | Refuses an invalid coin; a valid one waits for execRound, whether or not the round has decided. |
| `AgreementInstance.RoundInstance.TakeCoin` | asynchronousBinaryAgreement/round.go:70-83 | execRound takes the oldest waiting coin and finishes the round: it decides if and only if its decision equals the coin, and the estimate is the coin after bot and the decision otherwise. |
| `AgreementInstance.Mmr.ReadDecision` | asynchronousBinaryAgreement/round.go:66-71 | In the named round's object execRound takes the decision of its crusader object and awaits the coin; the abstract node makes the machine's transition and every other round's object still shows its state. |
| `AgreementInstance.RoundInstance.Do` | asynchronousBinaryAgreement/round.go:9-20 | A proposal, message or goroutine step handed on to the round's crusader object is that action of the machine, and touches nothing else. |
| `AgreementInstance.Mmr.GetRound` | asynchronousBinaryAgreement/mmr.go:120-148 | A round object comes into being the first time its round is named, in its initial state and sharing nothing with the others, which keep showing theirs. |
| `AgreementInstance.Mmr.Do` | asynchronousBinaryAgreement/mmr.go:64-98 | A proposal or message reaches the named round's object only, and is the machine's transition. |
| `AgreementInstance.Mmr.SubmitCoin` | asynchronousBinaryAgreement/mmr.go:100-104 | Hands a valid coin to its round, which may not have decided yet; nothing else changes until the round takes it. |
| `AgreementInstance.Mmr.FinishRound` | asynchronousBinaryAgreement/mmr.go:100-112 | Once the round has decided and a coin waits, makes the machine's transition with the oldest coin: the node has decided afterwards if and only if it had before or the decision equals the coin, and only then is the coin sent to reachedDecision; otherwise the estimate is proposed with the coin to the next round. |
| `AgreementInstance.Mmr.SubmitDecision` | asynchronousBinaryAgreement/mmr.go:185-190 | A reported decision reaches the gadget only. |
| `AgreementInstance.Mmr.ReachDecision` | asynchronousBinaryAgreement/mmr.go:192-201 | Delivers one decision, reached or adopted. |
| `BroadcastNode.HandleInv` | byzantineReliableBroadcast/instance.go:105-143 | Every message keeps the node echoed, readied and delivered exactly where its counters say. |
| `BroadcastRuns.FirstsMean` | byzantineReliableBroadcast/instance.go:113-143 | A peer has a first echo, or ready, exactly if some message is one from it, and its value is that of the message no other such one came before. |
| `BroadcastRuns.CountersAreFirsts` | byzantineReliableBroadcast/instance.go:105-143 | After any messages, the echo and ready counters hold exactly each peer's first echo and first ready, and the sends received are exactly those sent, with the sender's bytes in front. |
| `BroadcastRuns.EdgeRefinesLevel` | byzantineReliableBroadcast/phase1.go:28-77 | After any messages from at most n peers, the equality tests and phase forwarding leave the node echoed, readied or delivered if and only if thresholds over the sends and over each peer's first echo and first ready, all read off the messages, say so; with at most one of each, and each backed by those thresholds. |
| `BroadcastRuns.BroadcastAgreement` | byzantineReliableBroadcast/phase2.go:28-64 | No two correct nodes send ready for, or deliver, different messages. |
| `BroadcastRuns.BroadcastIntegrity` | byzantineReliableBroadcast/phase3.go:27-54 | Whatever a correct node echoes, readies or delivers was received in a send by a correct node, is the owner's 16 bytes and a content, and parses to that owner and content, so the slice in parseMsg is in range. |
| `BroadcastRuns.BroadcastTotality` | byzantineReliableBroadcast/phase3.go:27-45 | In every settled state, if one correct node delivered m, all correct nodes delivered exactly m. |
| `BroadcastRuns.BroadcastValidity` | byzantineReliableBroadcast/middleware.go:184-196 | If the owner is correct, every correct echo and ready carries its message, and settled states in which its send arrived have all correct nodes delivering its content in its name. |
| `BroadcastSettling.CanSettle` | byzantineReliableBroadcast/instance.go:105-143 | From every reachable state, delivering what correct nodes sent leads to a settled state that keeps every delivery. |
| `BroadcastSettling.OwnerCanDeliver` | byzantineReliableBroadcast/phase3.go:27-54 | With a correct owner, every reachable state leads to one in which all correct nodes have delivered its content in its name, once. |
| `BroadcastSettling.DeliveredSpreads` | byzantineReliableBroadcast/phase3.go:27-45 | Whoever the owner is, once a correct node has delivered m, the run leads on to a state in which all have delivered exactly m. |
| `BroadcastInstance.Handler.constructor` | byzantineReliableBroadcast/instance.go:86-103 | The three phases share the handler's counters and start unfinished. |
| `BroadcastInstance.Handler.HandleSend` | byzantineReliableBroadcast/instance.go:105-111 | A send makes the machine's transition. |
| `BroadcastInstance.Handler.HandleEcho` | byzantineReliableBroadcast/instance.go:113-127 | Refuses exactly a peer's second echo; any other is counted for its message, and makes the machine's transition through the phases. |
| `BroadcastInstance.Handler.HandleReady` | byzantineReliableBroadcast/instance.go:129-143 | Refuses exactly a peer's second ready; any other is counted for its message, and makes the machine's transition through the phases. |
| `BroadcastInstance.Phase1.HandleSend` | byzantineReliableBroadcast/phase1.go:28-39 | Echoes sender and message unless it has echoed. |
| `BroadcastInstance.Phase1.HandleEcho` | byzantineReliableBroadcast/phase1.go:41-58 | Echoes at f + 1 echoes and forwards once echoed, as the machine does; without a counter for the message it changes nothing and, unless both phases are over, fails. |
| `BroadcastInstance.Phase1.HandleReady` | byzantineReliableBroadcast/phase1.go:60-77 | Echoes at f + 1 readies and forwards once echoed, as the machine does; without a counter for the message it changes nothing and fails. |
| `BroadcastInstance.Phase2.HandleEcho` | byzantineReliableBroadcast/phase2.go:28-45 | Readies at exactly n - f echoes, once. |
| `BroadcastInstance.Phase2.HandleReady` | byzantineReliableBroadcast/phase2.go:47-64 | Readies at exactly f + 1 readies, once, and forwards from then on, so that it may deliver in the same call; without a counter it changes nothing and fails. |
| `BroadcastInstance.Phase3.HandleReady` | byzantineReliableBroadcast/phase3.go:27-45 | Outputs the parsed message at exactly n - f readies. |
| `CommonSubsetNode.AcceptedSize` | agreementCommonSubset/bkr.go:81-83 | The filtered list has one entry per present result. |
| `CommonSubsetNode.AcceptedInjective` | agreementCommonSubset/bkr.go:81-83 | Result lists present at the same positions filter to the same output if and only if they are equal. |
| `CommonSubsetRuns.ProposedExactlyOnce` | agreementCommonSubset/proposalAcceptor.go:41-92 | In every reachable state each agreement got at most one proposal from a correct node, exactly one once its reject sweep is over, and while it is not answered a held input can answer its decision, whatever was proposed. |
| `CommonSubsetHistory.AcceptorHistory` | agreementCommonSubset/proposalAcceptor.go:41-92 | At every point of every run, an acceptor holds the first input that reached it, has proposed accept or reject by which of the input and the sweep came first, and once its agreement decided can be answered exactly if it was not yet and, for an accept, an input has come. |
| `CommonSubsetHistory.InputKept` | agreementCommonSubset/proposalAcceptor.go:41-57 | An input that reaches a correct node, even after its reject, is held at every later point of the run, or else the one it already had; and then a decided, unanswered agreement can be answered. |
| `CommonSubsetHistory.LoopHistory` | agreementCommonSubset/bkr.go:53-79 | The loop takes the acceptors' answers in the order they were given, each once, and what is queued is the rest. |
| `CommonSubsetHistory.ResultsHistory` | agreementCommonSubset/bkr.go:58-83 | A stored result is the first input that reached the acceptor if its answer was taken and the agreement accepted, and nothing otherwise; an output is the filtered results after n answers. |
| `CommonSubsetRuns.OutputSize` | agreementCommonSubset/bkr.go:58-83 | Every output has at least n - f entries. |
| `CommonSubsetRuns.OutputsMatch` | agreementCommonSubset/bkr.go:58-83 | Whatever order responses come in, any two outputs accept the same proposers, and the lists are equal if and only if the nodes took the same first input from each accepted proposer. |
| `CommonSubsetRuns.SameOutput` | agreementCommonSubset/bkr.go:58-92 | All correct nodes output the same list when no proposer broadcasts two different inputs. |
| `CommonSubsetLists.AnyTwoLists` | agreementCommonSubset/proposalAcceptor.go:41-57 | If at least n - f proposers broadcast, two correct nodes can output, in one run, any two lists that pick one broadcast input per chosen position; the other positions are rejected. |
| `CommonSubsetLists.SameListExactly` | agreementCommonSubset/bkr.go:58-92 | With two correct nodes or more, the lists agree in every run if and only if no proposer broadcasts two different inputs, or fewer than n - f broadcast anything. |
| `CommonSubsetLists.OutputNeedsInputs` | agreementCommonSubset/bkr.go:58-83 | Nobody outputs unless n - f proposers broadcast something. |
| `CommonSubsetRuns.NoDeadlock` | agreementCommonSubset/bkr.go:53-79 | With total broadcast, and agreements that decide once all correct nodes proposed, every settled state has every correct node outputting. |
| `CommonSubsetSettling.CanOutput` | agreementCommonSubset/bkr.go:53-92 | If all correct proposers broadcast, every reachable state of every run leads on to a settled one in which every correct node has its output. |
| `CommonSubsetInstance.ProposalAcceptor.SubmitInput` | agreementCommonSubset/proposalAcceptor.go:41-57 | Refuses a second input; any other is kept and queued for waitResponse, whatever was proposed, and accept is proposed unless something was. |
| `CommonSubsetInstance.ProposalAcceptor.RejectProposal` | agreementCommonSubset/proposalAcceptor.go:59-73 | Refuses once the input is there; otherwise proposes reject unless it has proposed. |
| `CommonSubsetInstance.ProposalAcceptor.HasProposed` | agreementCommonSubset/proposalAcceptor.go:75-79 | Tells whether this node proposed to the agreement. |
| `CommonSubsetInstance.ProposalAcceptor.WaitResponse` | agreementCommonSubset/proposalAcceptor.go:81-92 | An accept answers with the input, a reject with nothing. |
| `CommonSubsetInstance.Bkr.WaitAcceptorResponse` | agreementCommonSubset/bkr.go:53-56 | Queues an acceptor's answer with its position. |
| `CommonSubsetInstance.Bkr.TakeResponse` | agreementCommonSubset/bkr.go:59-65 | Taking a response is the machine's step: it is stored, and the sweep starts exactly when it completes n - f acceptances. |
| `CommonSubsetInstance.Bkr.SweepStep` | agreementCommonSubset/bkr.go:66-73 | Each call under an acceptor's lock, hasProposed or rejectProposal, is one step of the machine, so anything may happen in between. |
| `CommonSubsetInstance.Bkr.ProcessResponse` | agreementCommonSubset/bkr.go:58-79 | Those steps one after the other make a whole turn of the loop, and the last turn outputs the accepted proposals. |
| `CommonSubsetInstance.SweepProposesEverywhere` | agreementCommonSubset/bkr.go:65-73 | The sweep proposes reject exactly where nothing was proposed, leaves other proposals and all inputs alone, and leaves no agreement without a proposal. |
| `CommonSubsetInstance.Bkr.GetAccepted` | agreementCommonSubset/bkr.go:81-83 | The loop computes the filter that AcceptedSize and AcceptedInjective describe. |
| `CommonSubsetInstance.Bkr.GetAcceptor` | agreementCommonSubset/bkr.go:94-101 | Finds an acceptor of the proposer, or reports that there is none. |
| `CommonSubsetInstance.Bkr.ReceiveInput` | agreementCommonSubset/bkr.go:85-92 | Submits the input to the proposer's acceptor and touches no other; an unknown proposer changes nothing. |
| `PrimeField.InverseLaw` | coinTosser/ss.go:38-38 | The extended Euclid inverse of a nonzero residue is its inverse, modulo any prime. |
| `Lagrange.UnitSum` | coinTosser/ss.go:30-39 | The coefficients of any nonempty list of distinct ids add up to one. |
| `Lagrange.Interpolation` | coinTosser/ss.go:30-39 | Values of any polynomial with no more coefficients than ids, weighted by the coefficients, add up to its value at zero, modulo any prime. |
| `Lagrange.Recovery` | coinTosser/ss.go:19-39 | Over any prime field and any group it acts on, for every polynomial of degree at most t and every list of at least t + 1 shares with distinct ids, the recovered point is the base times the constant term. |
| `Lagrange.AnySharesRecoverTheSame` | coinTosser/ss.go:19-28 | Any two such lists recover the same point. |
| `CoinChannel.Channel.TossCoin` | coinTosser/channel.go:63-83 | Makes a fresh instance and, if the node can prove its share, hands it everything that waited. |
| `CoinChannel.Channel.ProcessUnordered` | coinTosser/channel.go:85-96 | Hands the waiting shares over in order and forgets them. |
| `CoinChannel.Channel.SubmitShare` | coinTosser/channel.go:111-121 | Hands a share to its instance, or reports that there is none. |
| `CoinChannel.Channel.ScheduleShareSubmission` | coinTosser/channel.go:123-140 | A share goes to its instance if there is one and waits otherwise. |
| `CoinChannel.BufferedExactly` | coinTosser/channel.go:63-140 | After every sequence of commands, a coin's buffer holds its arrivals before the first toss until a toss succeeds, and nothing after; it has an instance exactly when it was tossed. |
| `CoinChannel.HandedExactly` | coinTosser/channel.go:63-140 | For every sequence of commands, the current instance was handed the arrivals after its toss, preceded by the early ones exactly if that toss was the first to succeed. |
| `CoinChannel.OneTossOrder` | coinTosser/channel.go:63-140 | With one toss among any arrivals, the instance is handed exactly the arrivals in order, each once, as if the toss had come first, if and only if the toss succeeded or nothing came early. |
| `CoinChannel.NothingWaits` | coinTosser/channel.go:85-96 | A successful toss leaves nothing waiting, then or later. |
| `CommitmentCodec.MarshalCommitment` | coinTosser/dealer.go:31-45 | The loop produces the format: base, count, shares. |
| `CommitmentCodec.WriteCommitment` | coinTosser/dealer.go:47-67 | Base, little-endian count truncated to 32 bits, then the parts in order. |
| `CommitmentCodec.UnmarshalPointShares` | coinTosser/dealer.go:127-144 | The loop over the shrinking slice computes the recursive parser, refusing a wrong length or a bad share. |
| `CommitmentCodec.UnmarshalCommitment` | coinTosser/dealer.go:89-125 | Computes the decoder that RoundTrip and AcceptedExactly are about, with every error path. |
| `CommitmentCodec.RoundTrip` | coinTosser/dealer.go:31-144 | Decoding an encoding returns the same base and list for fewer than 2^32 commitments, and fails for any more. |
| `CommitmentCodec.Layout` | coinTosser/dealer.go:31-67 | Where every byte lies: the base first, then the four bytes of the count, lowest first, then share k at a fixed offset as id and point, and nothing else. |
| `CommitmentCodec.AcceptedLength` | coinTosser/dealer.go:105-144 | Decoding accepts a byte string only if its length matches the count it embeds. |
| `CommitmentCodec.AcceptedExactly` | coinTosser/dealer.go:31-144 | With one encoding per point and scalar, the accepted byte strings are exactly the encodings. |

## Left out

- CrusaderProgress.AllDecide: one direction only, because binds from faulty nodes may make up for a missing one; the two-way statement, per node, is `DecidedExactly`.
- BroadcastRuns.BroadcastValidity: the owner is tied to the instance by assumption (an instance id is derived from the sender's key); the middleware's bytes are not modelled.
- Round numbers are naturals; the wrap-around of the 16-bit counter is not modelled.
- Termination of later rounds and of the whole agreement in every run (`CanDecide` gives a run), and binding of `evbca`: the code does not provide them (a bind of bot is refused in later rounds, `waitForPrevCoin` has no caller, a node that decides proposes no further, `fastForward` binds without a vote quorum).
- `prevCoinChan` and `inputExternalValidChan` of `evbca` are written and never read; their capacities, and so the blocking of a second normal-route proposal to one `evbca`, are not modelled. `BlockedExactly` is about `bindValChan`.
- A second coin for one round waits for ever behind the first; a blocked send is a log entry beyond the capacity, not a stopped thread.
- The forwarding goroutines of `mmr` (`listenRequests`) and of the channels: a broadcast value is available to every peer from the moment it is sent.
- The share processor's duplicate branch, which does not return; recovery takes distinct ids as its premise.
- Ristretto255 (section 4 of RFC 9496), the discrete-log proofs, SHA-256 and the secret-sharing library: an abstract prime field and module, fixed-size codecs with a round-trip law, and shares that are evaluations of a polynomial.
- Probability: unpredictability of the coin and expected numbers of rounds.
- The overlay network, TLS, middlewares, configuration, logging, `main.go`, `close` methods, timers, and the test schedulers.
- A nil proposal: an accepted input is always a present byte string, as broadcast delivers it.
