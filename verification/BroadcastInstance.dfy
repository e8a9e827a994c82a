/** The reliable broadcast as the program runs it: a handler that counts, and a chain of phase handlers
    that share its counters and forward to each other. */
module BroadcastInstance {
  import opened BroadcastNode

  // The counters all phases look at.
  class BrbData {
    const n: nat
    const f: nat
    var echoes: map<Bytes, nat>
    var readies: map<Bytes, nat>

    constructor (n: nat, f: nat)
      ensures this.n == n && this.f == f && echoes == map[] && readies == map[]
    {
      this.n, this.f, echoes, readies := n, f, map[], map[];
    }
  }

  function Num(counters: map<Bytes, nat>, m: Bytes): nat {
    if m in counters then counters[m] else 0
  }

  class Phase3 {
    const data: BrbData
    var output: seq<Delivery>
    ghost var delivered: seq<Bytes>

    constructor (data: BrbData)
      ensures this.data == data && output == [] && delivered == []
    {
      this.data, output, delivered := data, [], [];
    }

    method HandleReady(msg: Bytes) returns (ok: bool)
      modifies this
      ensures ok == (msg in data.readies)
      ensures var hit := ok && data.readies[msg] == data.n - data.f;
              && delivered == old(delivered) + (if hit then [msg] else [])
              && output == old(output) + (if hit then [ParseMsg(msg)] else [])
    {
      ok := msg in data.readies;
      if ok && data.readies[msg] == data.n - data.f {
        output := output + [ParseMsg(msg)];
        delivered := delivered + [msg];
      }
    }
  }

  class Phase2 {
    const data: BrbData
    const nextPhase: Phase3
    var isFinished: bool
    var ready: seq<Bytes>

    constructor (data: BrbData, nextPhase: Phase3)
      ensures this.data == data && this.nextPhase == nextPhase && !isFinished && ready == []
    {
      this.data, this.nextPhase, isFinished, ready := data, nextPhase, false, [];
    }

    method HandleEcho(msg: Bytes) returns (ok: bool)
      modifies this
      ensures ok == (old(isFinished) || msg in data.echoes)
      ensures var hit := !old(isFinished) && ok && data.echoes[msg] == data.n - data.f;
              && isFinished == (old(isFinished) || hit)
              && ready == old(ready) + (if hit then [msg] else [])
    {
      if isFinished {
        return true;
      }
      ok := msg in data.echoes;
      if ok && data.echoes[msg] == data.n - data.f {
        isFinished := true;
        ready := ready + [msg];
      }
    }

    method HandleReady(msg: Bytes) returns (ok: bool)
      requires nextPhase.data == data
      modifies this, nextPhase
      ensures ok == (msg in data.readies)
      ensures var hit := !old(isFinished) && ok && data.readies[msg] == data.f + 1;
              var deliver := isFinished && ok && data.readies[msg] == data.n - data.f;
              && isFinished == (old(isFinished) || hit)
              && ready == old(ready) + (if hit then [msg] else [])
              && nextPhase.delivered == old(nextPhase.delivered) + (if deliver then [msg] else [])
              && nextPhase.output == old(nextPhase.output) + (if deliver then [ParseMsg(msg)] else [])
    {
      if isFinished {
        ok := nextPhase.HandleReady(msg);
        return;
      }
      ok := msg in data.readies;
      if ok && data.readies[msg] == data.f + 1 {
        isFinished := true;
        ready := ready + [msg];
        ok := nextPhase.HandleReady(msg);
      }
    }
  }

  class Phase1 {
    const data: BrbData
    const nextPhase: Phase2
    var isFinished: bool
    var echo: seq<Bytes>

    constructor (data: BrbData, nextPhase: Phase2)
      ensures this.data == data && this.nextPhase == nextPhase && !isFinished && echo == []
    {
      this.data, this.nextPhase, isFinished, echo := data, nextPhase, false, [];
    }

    ghost predicate Wired() {
      nextPhase.data == data && nextPhase.nextPhase.data == data
    }

    // The fields of the three phases, in a node with the given counters and sends.
    ghost function View(echoFrom: Votes, readyFrom: Votes, sends: seq<Bytes>): State
      reads this, nextPhase, nextPhase.nextPhase
    {
      var p2, p3 := nextPhase, nextPhase.nextPhase;
      State(data.n, data.f, echoFrom, readyFrom, isFinished, p2.isFinished, echo, p2.ready, p3.output, sends, p3.delivered)
    }

    method HandleSend(msg: Bytes, sender: Uuid)
      modifies this
      ensures isFinished && echo == old(echo) + (if old(isFinished) then [] else [sender + msg])
    {
      if !isFinished {
        isFinished := true;
        echo := echo + [sender + msg];
      }
    }

    method HandleEcho(msg: Bytes, ghost e: Votes, ghost r: Votes, ghost sends: seq<Bytes>) returns (ok: bool)
      requires Wired() && (msg in data.echoes ==> data.echoes[msg] == Count(e, msg))
      modifies this, nextPhase
      ensures ok == (msg in data.echoes || old(isFinished && nextPhase.isFinished))
      ensures View(e, r, sends) ==
              if msg in data.echoes then Phase1Echo(old(View(e, r, sends)), msg) else old(View(e, r, sends))
    {
      if isFinished {
        ok := nextPhase.HandleEcho(msg);
        return;
      }
      ok := msg in data.echoes;
      if ok && data.echoes[msg] == data.f + 1 {
        isFinished := true;
        echo := echo + [msg];
        ok := nextPhase.HandleEcho(msg);
      }
    }

    method HandleReady(msg: Bytes, ghost e: Votes, ghost r: Votes, ghost sends: seq<Bytes>) returns (ok: bool)
      requires Wired() && (msg in data.readies ==> data.readies[msg] == Count(r, msg))
      modifies this, nextPhase, nextPhase.nextPhase
      ensures ok == (msg in data.readies)
      ensures View(e, r, sends) == if ok then Phase1Ready(old(View(e, r, sends)), msg) else old(View(e, r, sends))
    {
      if isFinished {
        ok := nextPhase.HandleReady(msg);
        return;
      }
      ok := msg in data.readies;
      if ok && data.readies[msg] == data.f + 1 {
        isFinished := true;
        echo := echo + [msg];
        ok := nextPhase.HandleReady(msg);
      }
    }
  }

  class Handler {
    const data: BrbData
    const handler: Phase1
    var peersEchoed: set<Uuid>
    var peersReadied: set<Uuid>
    ghost var echoFrom: Votes
    ghost var readyFrom: Votes
    ghost var sends: seq<Bytes>

    // Each counter counts the distinct peers that sent that message.
    ghost predicate Valid() reads this, data {
      && handler.data == data && handler.Wired()
      && peersEchoed == echoFrom.Keys && peersReadied == readyFrom.Keys
      && Counts(data.echoes, echoFrom) && Counts(data.readies, readyFrom)
    }

    ghost predicate Counts(counters: map<Bytes, nat>, votes: Votes) {
      forall m :: Num(counters, m) == Count(votes, m)
    }

    ghost function View(): State reads this, handler, handler.nextPhase, handler.nextPhase.nextPhase {
      handler.View(echoFrom, readyFrom, sends)
    }

    constructor (n: nat, f: nat)
      ensures Valid() && View() == Fresh(n, f)
      ensures fresh(data) && fresh(handler) && fresh(handler.nextPhase) && fresh(handler.nextPhase.nextPhase)
    {
      var shared := new BrbData(n, f);
      var ph3 := new Phase3(shared);
      var ph2 := new Phase2(shared, ph3);
      var ph1 := new Phase1(shared, ph2);
      data, handler := shared, ph1;
      peersEchoed, peersReadied := {}, {};
      echoFrom, readyFrom, sends := map[], map[], [];
    }

    method HandleSend(msg: Bytes, sender: Uuid)
      requires Valid()
      modifies this`sends, handler
      ensures Valid() && View() == BroadcastNode.HandleSend(old(View()), msg, sender)
    {
      handler.HandleSend(msg, sender);
      sends := sends + [sender + msg];
    }

    method HandleEcho(msg: Bytes, sender: Uuid) returns (ok: bool)
      requires Valid()
      modifies this, data, handler, handler.nextPhase
      ensures Valid() && View() == BroadcastNode.HandleEcho(old(View()), msg, sender)
      ensures ok == (sender !in old(peersEchoed))
      ensures echoFrom == (if ok then old(echoFrom)[sender := msg] else old(echoFrom)) && readyFrom == old(readyFrom)
    {
      if sender in peersEchoed {
        return false;
      }
      CountEcho(msg, sender);
      ok := handler.HandleEcho(msg, echoFrom, readyFrom, sends);
    }

    method CountEcho(msg: Bytes, sender: Uuid)
      requires Valid() && sender !in peersEchoed
      modifies this`peersEchoed, this`echoFrom, data
      ensures Valid() && msg in data.echoes && echoFrom == old(echoFrom)[sender := msg]
    {
      CountsGrow(data.echoes, echoFrom, sender, msg);
      data.echoes := data.echoes[msg := Num(data.echoes, msg) + 1];
      peersEchoed := peersEchoed + {sender};
      echoFrom := echoFrom[sender := msg];
    }

    method HandleReady(msg: Bytes, sender: Uuid) returns (ok: bool)
      requires Valid()
      modifies this, data, handler, handler.nextPhase, handler.nextPhase.nextPhase
      ensures Valid() && View() == BroadcastNode.HandleReady(old(View()), msg, sender)
      ensures ok == (sender !in old(peersReadied))
      ensures readyFrom == (if ok then old(readyFrom)[sender := msg] else old(readyFrom)) && echoFrom == old(echoFrom)
    {
      if sender in peersReadied {
        return false;
      }
      CountReady(msg, sender);
      ok := handler.HandleReady(msg, echoFrom, readyFrom, sends);
    }

    method CountReady(msg: Bytes, sender: Uuid)
      requires Valid() && sender !in peersReadied
      modifies this`peersReadied, this`readyFrom, data
      ensures Valid() && msg in data.readies && readyFrom == old(readyFrom)[sender := msg]
    {
      CountsGrow(data.readies, readyFrom, sender, msg);
      data.readies := data.readies[msg := Num(data.readies, msg) + 1];
      peersReadied := peersReadied + {sender};
      readyFrom := readyFrom[sender := msg];
    }

    lemma CountsGrow(counters: map<Bytes, nat>, votes: Votes, sender: Uuid, msg: Bytes)
      requires Counts(counters, votes) && sender !in votes
      ensures Counts(counters[msg := Num(counters, msg) + 1], votes[sender := msg])
    {
      var counters', votes' := counters[msg := Num(counters, msg) + 1], votes[sender := msg];
      forall m ensures Num(counters', m) == Count(votes', m) {
        CountGrows(votes, sender, msg, m);
      }
    }
  }
}
