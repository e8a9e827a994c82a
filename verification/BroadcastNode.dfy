/** One node of one instance of the Byzantine reliable broadcast, as a state machine: the counters
    shared by the phases, and the chain of phase handlers that forward to each other and fire when a
    counter equals a threshold.

    The counters are kept as who sent what; the hash that the program uses as a counter key is taken
    as injective, so a message stands for its own key. */
module BroadcastNode {

  type Byte = x: int | 0 <= x < 256
  type Bytes = seq<Byte>
  type Uuid = b: Bytes | |b| == 16 witness [0, 0, 0, 0, 0, 0, 0, 0, 0, 0, 0, 0, 0, 0, 0, 0]

  // parseMsg slices 16 bytes off the front, which panics on anything shorter.
  datatype Delivery = OutOfRange | Delivery(sender: Uuid, content: Bytes)

  function ParseMsg(m: Bytes): Delivery {
    if |m| < 16 then OutOfRange else Delivery(m[..16], m[16..])
  }

  datatype State = State(
    n: nat,
    f: nat,
    echoFrom: map<Uuid, Bytes>,   // peersEchoed and echoes
    readyFrom: map<Uuid, Bytes>,  // peersReadied and readies
    echoed: bool,                 // phase 1 isFinished
    readied: bool,                // phase 2 isFinished
    echoOut: seq<Bytes>,
    readyOut: seq<Bytes>,
    output: seq<Delivery>,
    sends: seq<Bytes>,            // history: every send received, sender's bytes first
    delivered: seq<Bytes>)        // history: what was parsed for output

  function Fresh(n: nat, f: nat): State {
    State(n, f, map[], map[], false, false, [], [], [], [], [])
  }

  function From(votes: map<Uuid, Bytes>, m: Bytes): set<Uuid> {
    set p | p in votes && votes[p] == m
  }

  function Count(votes: map<Uuid, Bytes>, m: Bytes): nat {
    |From(votes, m)|
  }

  // ---- phases

  function Phase3Ready(s: State, m: Bytes): State {
    if Count(s.readyFrom, m) == s.n - s.f
    then s.(output := s.output + [ParseMsg(m)], delivered := s.delivered + [m])
    else s
  }

  function SendReady(s: State, m: Bytes): State {
    s.(readied := true, readyOut := s.readyOut + [m])
  }

  function Phase2Echo(s: State, m: Bytes): State {
    if !s.readied && Count(s.echoFrom, m) == s.n - s.f then SendReady(s, m) else s
  }

  function Phase2Ready(s: State, m: Bytes): State {
    if s.readied then Phase3Ready(s, m)
    else if Count(s.readyFrom, m) == s.f + 1 then Phase3Ready(SendReady(s, m), m)
    else s
  }

  function SendEcho(s: State, m: Bytes): State {
    s.(echoed := true, echoOut := s.echoOut + [m])
  }

  function Phase1Echo(s: State, m: Bytes): State {
    if s.echoed then Phase2Echo(s, m)
    else if Count(s.echoFrom, m) == s.f + 1 then Phase2Echo(SendEcho(s, m), m)
    else s
  }

  function Phase1Ready(s: State, m: Bytes): State {
    if s.echoed then Phase2Ready(s, m)
    else if Count(s.readyFrom, m) == s.f + 1 then Phase2Ready(SendEcho(s, m), m)
    else s
  }

  // ---- handlers

  function HandleSend(s: State, content: Bytes, sender: Uuid): State {
    var t := s.(sends := s.sends + [sender + content]);
    if s.echoed then t else SendEcho(t, sender + content)
  }

  function HandleEcho(s: State, m: Bytes, from: Uuid): State {
    if from in s.echoFrom then s else Phase1Echo(s.(echoFrom := s.echoFrom[from := m]), m)
  }

  function HandleReady(s: State, m: Bytes, from: Uuid): State {
    if from in s.readyFrom then s else Phase1Ready(s.(readyFrom := s.readyFrom[from := m]), m)
  }

  datatype Message = Send(content: Bytes) | Echo(m: Bytes) | Ready(m: Bytes)

  function Handle(s: State, from: Uuid, msg: Message): State {
    match msg
    case Send(content) => HandleSend(s, content, from)
    case Echo(m) => HandleEcho(s, m, from)
    case Ready(m) => HandleReady(s, m, from)
  }

  // ---- what the edge-triggered handlers amount to, in terms of thresholds reached

  type Votes = map<Uuid, Bytes>

  ghost predicate EchoBacked(f: nat, sends: seq<Bytes>, e: Votes, r: Votes, m: Bytes) {
    m in sends || Count(e, m) > f || Count(r, m) > f
  }

  ghost predicate ReadyBacked(n: nat, f: nat, e: Votes, r: Votes, m: Bytes) {
    Count(e, m) >= n - f || Count(r, m) > f
  }

  ghost predicate DeliverBacked(n: nat, f: nat, r: Votes, m: Bytes) {
    Count(r, m) >= n - f
  }

  ghost predicate EchoInv(f: nat, sends: seq<Bytes>, e: Votes, r: Votes, echoed: bool, out: seq<Bytes>) {
    && |out| == (if echoed then 1 else 0)
    && (forall m :: m in out ==> EchoBacked(f, sends, e, r, m))
    && (forall m :: EchoBacked(f, sends, e, r, m) ==> echoed)
  }

  ghost predicate ReadyInv(n: nat, f: nat, e: Votes, r: Votes, readied: bool, out: seq<Bytes>) {
    && |out| == (if readied then 1 else 0)
    && (forall m :: m in out ==> ReadyBacked(n, f, e, r, m))
    && (forall m :: ReadyBacked(n, f, e, r, m) ==> readied)
  }

  ghost predicate Distinct(q: seq<Bytes>) {
    forall i, j :: 0 <= i < j < |q| ==> q[i] != q[j]
  }

  ghost predicate Parsed(output: seq<Delivery>, delivered: seq<Bytes>) {
    |output| == |delivered| && forall i :: 0 <= i < |output| ==> output[i] == ParseMsg(delivered[i])
  }

  ghost predicate DeliverInv(n: nat, f: nat, r: Votes, delivered: seq<Bytes>) {
    && (forall m :: m in delivered ==> DeliverBacked(n, f, r, m))
    && (forall m :: DeliverBacked(n, f, r, m) ==> m in delivered)
    && Distinct(delivered)
  }

  // The edge-triggered node refines the level-triggered one: it has echoed, readied or delivered
  // exactly when some threshold says so, and at most once each.
  ghost predicate Inv(s: State) {
    && s.n > 2 * s.f
    && EchoInv(s.f, s.sends, s.echoFrom, s.readyFrom, s.echoed, s.echoOut)
    && ReadyInv(s.n, s.f, s.echoFrom, s.readyFrom, s.readied, s.readyOut)
    && DeliverInv(s.n, s.f, s.readyFrom, s.delivered)
    && Parsed(s.output, s.delivered)
  }

  lemma FreshInv(n: nat, f: nat)
    requires n > 2 * f
    ensures Inv(Fresh(n, f))
  {
  }

  lemma CountGrows(votes: Votes, p: Uuid, m: Bytes, x: Bytes)
    requires p !in votes
    ensures Count(votes[p := m], x) == Count(votes, x) + (if x == m then 1 else 0)
  {
    if x == m {
      assert From(votes[p := m], x) == From(votes, x) + {p};
    } else {
      assert From(votes[p := m], x) == From(votes, x);
    }
  }

  lemma SendStep(f: nat, sends: seq<Bytes>, e: Votes, r: Votes, echoed: bool, out: seq<Bytes>, m: Bytes)
    requires EchoInv(f, sends, e, r, echoed, out)
    ensures EchoInv(f, sends + [m], e, r, true, if echoed then out else out + [m])
  {
    forall x | EchoBacked(f, sends, e, r, x) ensures EchoBacked(f, sends + [m], e, r, x) {
    }
  }

  // One more echo, or one more ready, for m: the echo of phase 1.
  lemma EchoStep(f: nat, sends: seq<Bytes>, e: Votes, r: Votes, e': Votes, r': Votes, echoed: bool, out: seq<Bytes>, m: Bytes, hit: bool)
    requires EchoInv(f, sends, e, r, echoed, out)
    requires forall x :: x != m ==> (EchoBacked(f, sends, e', r', x) <==> EchoBacked(f, sends, e, r, x))
    requires EchoBacked(f, sends, e, r, m) ==> EchoBacked(f, sends, e', r', m)
    requires EchoBacked(f, sends, e', r', m) ==> EchoBacked(f, sends, e, r, m) || hit
    requires hit ==> EchoBacked(f, sends, e', r', m)
    ensures var now := echoed || hit;
            EchoInv(f, sends, e', r', now, if hit && !echoed then out + [m] else out)
  {
  }

  lemma ReadyStep(n: nat, f: nat, e: Votes, r: Votes, e': Votes, r': Votes, readied: bool, out: seq<Bytes>, m: Bytes, hit: bool)
    requires ReadyInv(n, f, e, r, readied, out)
    requires forall x :: x != m ==> (ReadyBacked(n, f, e', r', x) <==> ReadyBacked(n, f, e, r, x))
    requires ReadyBacked(n, f, e, r, m) ==> ReadyBacked(n, f, e', r', m)
    requires ReadyBacked(n, f, e', r', m) ==> ReadyBacked(n, f, e, r, m) || hit
    requires hit ==> ReadyBacked(n, f, e', r', m)
    ensures var now := readied || hit;
            ReadyInv(n, f, e', r', now, if hit && !readied then out + [m] else out)
  {
  }

  lemma DeliverStep(n: nat, f: nat, r: Votes, from: Uuid, delivered: seq<Bytes>, m: Bytes)
    requires DeliverInv(n, f, r, delivered) && from !in r
    ensures var r' := r[from := m];
            DeliverInv(n, f, r', if Count(r', m) == n - f then delivered + [m] else delivered)
  {
    forall x ensures Count(r[from := m], x) == Count(r, x) + (if x == m then 1 else 0) {
      CountGrows(r, from, m, x);
    }
    forall x ensures DeliverBacked(n, f, r, x) ==> DeliverBacked(n, f, r[from := m], x) {
    }
    assert m in delivered <==> DeliverBacked(n, f, r, m);
  }

  lemma HandleSendInv(s: State, content: Bytes, sender: Uuid)
    requires Inv(s)
    ensures Inv(HandleSend(s, content, sender))
  {
    SendStep(s.f, s.sends, s.echoFrom, s.readyFrom, s.echoed, s.echoOut, sender + content);
  }

  lemma HandleEchoInv(s: State, m: Bytes, from: Uuid)
    requires Inv(s)
    ensures Inv(HandleEcho(s, m, from))
  {
    if from !in s.echoFrom {
      var e := s.echoFrom[from := m];
      forall x ensures Count(e, x) == Count(s.echoFrom, x) + (if x == m then 1 else 0) {
        CountGrows(s.echoFrom, from, m, x);
      }
      EchoStep(s.f, s.sends, s.echoFrom, s.readyFrom, e, s.readyFrom, s.echoed, s.echoOut, m, Count(e, m) == s.f + 1);
      ReadyStep(s.n, s.f, s.echoFrom, s.readyFrom, e, s.readyFrom, s.readied, s.readyOut, m, Count(e, m) == s.n - s.f);
      PassedOn(s, e, s.readyFrom, m);
    }
  }

  // A count that reaches the higher threshold has passed the lower one, so phase 1 is over by then.
  lemma PassedOn(s: State, e: Votes, r: Votes, m: Bytes)
    requires Inv(s)
    requires Count(e, m) <= Count(s.echoFrom, m) + 1 && Count(r, m) <= Count(s.readyFrom, m) + 1
    ensures Count(e, m) >= s.n - s.f ==> s.echoed || Count(e, m) == s.f + 1
    ensures Count(r, m) > s.f ==> (s.echoed && s.readied) || Count(r, m) == s.f + 1
  {
    assert EchoBacked(s.f, s.sends, s.echoFrom, s.readyFrom, m) ==> s.echoed;
    assert ReadyBacked(s.n, s.f, s.echoFrom, s.readyFrom, m) ==> s.readied;
  }

  lemma HandleReadyInv(s: State, m: Bytes, from: Uuid)
    requires Inv(s)
    ensures Inv(HandleReady(s, m, from))
  {
    if from !in s.readyFrom {
      var r := s.readyFrom[from := m];
      forall x ensures Count(r, x) == Count(s.readyFrom, x) + (if x == m then 1 else 0) {
        CountGrows(s.readyFrom, from, m, x);
      }
      EchoStep(s.f, s.sends, s.echoFrom, s.readyFrom, s.echoFrom, r, s.echoed, s.echoOut, m, Count(r, m) == s.f + 1);
      ReadyStep(s.n, s.f, s.echoFrom, s.readyFrom, s.echoFrom, r, s.readied, s.readyOut, m, Count(r, m) == s.f + 1);
      DeliverStep(s.n, s.f, s.readyFrom, from, s.delivered, m);
      PassedOn(s, s.echoFrom, r, m);
    }
  }

  lemma HandleInv(s: State, from: Uuid, msg: Message)
    requires Inv(s)
    ensures Inv(Handle(s, from, msg))
  {
    match msg
    case Send(content) => HandleSendInv(s, content, from);
    case Echo(m) => HandleEchoInv(s, m, from);
    case Ready(m) => HandleReadyInv(s, m, from);
  }
}
