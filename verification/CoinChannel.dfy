/** The coin channel: shares may arrive before this node tosses the coin they belong to, so they wait in
    a buffer per coin until the toss creates the instance that takes them. */
module CoinChannel {

  type Id = nat

  // A share as it arrives: who sent it and what it carries.
  datatype Share<S> = Share(sender: Id, value: S)

  // One serialised command. `proved` says whether the toss could compute its own share and proof.
  datatype Command<S> = Toss(id: Id, proved: bool) | Arrive(id: Id, share: Share<S>)

  /** `instances` holds, per coin, the shares handed to its current instance so far, in order;
      `unordered` the shares waiting for an instance. */
  datatype View<S> = View(instances: map<Id, seq<Share<S>>>, unordered: map<Id, seq<Share<S>>>)

  function Waiting<S>(v: View<S>, id: Id): seq<Share<S>> {
    if id in v.unordered then v.unordered[id] else []
  }

  function Apply<S>(v: View<S>, c: Command<S>): View<S> {
    match c
    case Toss(id, proved) =>
      if proved then View(v.instances[id := Waiting(v, id)], v.unordered - {id})
      else v.(instances := v.instances[id := []])
    case Arrive(id, share) =>
      if id in v.instances then v.(instances := v.instances[id := v.instances[id] + [share]])
      else v.(unordered := v.unordered[id := Waiting(v, id) + [share]])
  }

  function Run<S>(commands: seq<Command<S>>): View<S> {
    if commands == [] then View(map[], map[])
    else Apply(Run(commands[..|commands| - 1]), commands[|commands| - 1])
  }

  // ---- the channel itself

  class Channel<S> {
    var instances: map<Id, seq<Share<S>>>
    var unordered: map<Id, seq<Share<S>>>
    var finished: set<Id>

    // No command marks a coin finished.
    ghost predicate Valid() reads this {
      finished == {}
    }

    ghost function Contents(): View<S> reads this {
      View(instances, unordered)
    }

    constructor ()
      ensures Valid() && Contents() == Run([])
    {
      instances, unordered, finished := map[], map[], {};
    }

    method IsFinished(id: Id) returns (b: bool)
      requires Valid()
      ensures !b
    {
      b := id in finished;
    }

    method TossCoin(id: Id, proved: bool)
      requires Valid()
      modifies this
      ensures Valid() && Contents() == Apply(old(Contents()), Toss(id, proved))
    {
      instances := instances[id := []];
      if proved {
        ProcessUnordered(id);
        assert [] + Waiting(old(Contents()), id) == Waiting(old(Contents()), id);
      }
    }

    method ProcessUnordered(id: Id)
      requires Valid() && id in instances
      modifies this
      ensures Valid() && unordered == old(unordered) - {id}
      ensures instances == old(instances)[id := old(instances[id] + Waiting(Contents(), id))]
    {
      var commands := if id in unordered then unordered[id] else [];
      ghost var handed := instances[id];
      assert handed + commands[..0] == handed;
      for i := 0 to |commands|
        invariant Valid() && unordered == old(unordered) && id in instances
        invariant instances == old(instances)[id := handed + commands[..i]]
      {
        assert handed + commands[..i] + [commands[i]] == handed + commands[..i + 1];
        var _ := SubmitShare(id, commands[i]);
      }
      assert commands[..|commands|] == commands;
      unordered := unordered - {id};
    }

    method SubmitShare(id: Id, share: Share<S>) returns (found: bool)
      requires Valid()
      modifies this
      ensures Valid() && unordered == old(unordered)
      ensures found == (id in old(instances))
      ensures instances == if found then old(instances)[id := old(instances)[id] + [share]] else old(instances)
    {
      var done := IsFinished(id);
      found := done || id in instances;
      if !done && found {
        instances := instances[id := instances[id] + [share]];
      }
    }

    method ScheduleShareSubmission(id: Id, share: Share<S>)
      requires Valid()
      modifies this
      ensures Valid() && Contents() == Apply(old(Contents()), Arrive(id, share))
    {
      var done := IsFinished(id);
      if !done {
        if id !in instances {
          if id !in unordered {
            unordered := unordered[id := []];
          }
          unordered := unordered[id := unordered[id] + [share]];
        } else {
          var _ := SubmitShare(id, share);
        }
      }
    }
  }

  // ---- what each instance receives, for every sequence of commands

  // The shares that arrived for a coin, in order.
  function Arrivals<S>(commands: seq<Command<S>>, id: Id): seq<Share<S>> {
    if commands == [] then []
    else
      var k := |commands| - 1;
      Arrivals(commands[..k], id) +
      match commands[k] { case Arrive(i, share) => (if i == id then [share] else []) case Toss(_, _) => [] }
  }

  ghost predicate Tossed<S>(commands: seq<Command<S>>, id: Id) {
    exists i :: 0 <= i < |commands| && commands[i].Toss? && commands[i].id == id
  }

  ghost predicate Proved<S>(commands: seq<Command<S>>, id: Id) {
    exists i :: 0 <= i < |commands| && commands[i].Toss? && commands[i].id == id && commands[i].proved
  }

  lemma RunBack<S>(front: seq<Command<S>>, c: Command<S>)
    ensures Run(front + [c]) == Apply(Run(front), c)
  {
    assert (front + [c])[..|front|] == front;
  }

  lemma ArrivalsBack<S>(front: seq<Command<S>>, c: Command<S>, id: Id)
    ensures Arrivals(front + [c], id) == Arrivals(front, id) + if c.Arrive? && c.id == id then [c.share] else []
  {
    assert (front + [c])[..|front|] == front;
  }

  lemma {:induction false} ArrivalsConcat<S>(a: seq<Command<S>>, b: seq<Command<S>>, id: Id)
    ensures Arrivals(a + b, id) == Arrivals(a, id) + Arrivals(b, id)
  {
    if b == [] {
      assert a + b == a;
    } else {
      var k := |b| - 1;
      ArrivalsConcat(a, b[..k], id);
      ArrivalsBack(a + b[..k], b[k], id);
      ArrivalsBack(b[..k], b[k], id);
      assert a + b[..k] + [b[k]] == a + b && b[..k] + [b[k]] == b;
    }
  }

  // Before the first toss everything waits.
  lemma {:induction false} AllWait<S>(commands: seq<Command<S>>, id: Id)
    requires !Tossed(commands, id)
    ensures id !in Run(commands).instances && Waiting(Run(commands), id) == Arrivals(commands, id)
  {
    if commands != [] {
      var k := |commands| - 1;
      AllWait(commands[..k], id);
      assert commands[k].Toss? ==> commands[k].id != id;
    }
  }

  // With the instance there, a share for it is handed over at once.
  lemma HandOne<S>(v: View<S>, c: Command<S>, id: Id)
    requires id in v.instances && (c.Toss? ==> c.id != id)
    ensures id in Apply(v, c).instances
    ensures Apply(v, c).instances[id] == v.instances[id] + if c.Arrive? && c.id == id then [c.share] else []
  {
  }

  // After a toss everything goes to its instance, in order.
  lemma {:induction false} AllHanded<S>(before: seq<Command<S>>, after: seq<Command<S>>, id: Id)
    requires id in Run(before).instances && !Tossed(after, id)
    ensures id in Run(before + after).instances
    ensures Run(before + after).instances[id] == Run(before).instances[id] + Arrivals(after, id)
  {
    if after == [] {
      assert before + after == before;
    } else {
      var k := |after| - 1;
      var front, c := after[..k], after[k];
      assert after == front + [c] && before + after == before + front + [c];
      Extended(front, c, id);
      AllHanded(before, front, id);
      RunBack(before + front, c);
      ArrivalsBack(front, c, id);
      HandOne(Run(before + front), c, id);
    }
  }

  // The arrivals before the first toss of a coin.
  function Early<S>(commands: seq<Command<S>>, id: Id): seq<Share<S>> {
    if commands == [] then []
    else if commands[0].Toss? && commands[0].id == id then []
    else
      (if commands[0].Arrive? && commands[0].id == id then [commands[0].share] else []) + Early(commands[1..], id)
  }

  ghost predicate StartsWithToss<S>(commands: seq<Command<S>>, id: Id)
    requires commands != []
  {
    commands[0].Toss? && commands[0].id == id
  }

  lemma {:induction false} EarlyBack<S>(front: seq<Command<S>>, c: Command<S>, id: Id)
    ensures Early(front + [c], id) ==
            Early(front, id) + if !Tossed(front, id) && c.Arrive? && c.id == id then [c.share] else []
  {
    if front != [] {
      assert (front + [c])[1..] == front[1..] + [c];
      if !StartsWithToss(front, id) {
        EarlyBack(front[1..], c, id);
        TossedTail(front, id);
      }
    } else {
      assert Early([c][1..], id) == [];
    }
  }

  lemma TossedTail<S>(commands: seq<Command<S>>, id: Id)
    requires commands != [] && !StartsWithToss(commands, id)
    ensures Tossed(commands, id) == Tossed(commands[1..], id)
  {
    var rest := commands[1..];
    assert forall i :: 0 <= i < |rest| ==> rest[i] == commands[i + 1];
    if Tossed(commands, id) {
      var i :| 0 <= i < |commands| && commands[i].Toss? && commands[i].id == id;
      assert rest[i - 1] == commands[i];
    }
  }

  /** The buffer and the instance of every coin, after every sequence of commands: the early shares wait
      until a toss succeeds. */
  lemma {:induction false} BufferedExactly<S>(commands: seq<Command<S>>, id: Id)
    ensures Waiting(Run(commands), id) == if Proved(commands, id) then [] else Early(commands, id)
    ensures id in Run(commands).instances <==> Tossed(commands, id)
  {
    if commands != [] {
      var k := |commands| - 1;
      var front, c := commands[..k], commands[k];
      assert commands == front + [c];
      BufferedExactly(front, id);
      EarlyBack(front, c, id);
      RunBack(front, c);
      Extended(front, c, id);
    }
  }

  lemma Extended<S>(front: seq<Command<S>>, c: Command<S>, id: Id)
    ensures Tossed(front + [c], id) == (Tossed(front, id) || (c.Toss? && c.id == id))
    ensures Proved(front + [c], id) == (Proved(front, id) || (c.Toss? && c.id == id && c.proved))
    ensures Proved(front, id) ==> Tossed(front, id)
  {
    var all := front + [c];
    assert forall i :: 0 <= i < |front| ==> all[i] == front[i];
    assert all[|front|] == c;
  }

  /** What the current instance was handed, for every sequence of commands: the shares after its toss,
      preceded by the early ones if that toss was the first to succeed. */
  lemma HandedExactly<S>(before: seq<Command<S>>, proved: bool, after: seq<Command<S>>, id: Id)
    requires !Tossed(after, id)
    ensures var v := Run(before + [Toss(id, proved)] + after);
            && id in v.instances
            && v.instances[id] ==
               (if proved && !Proved(before, id) then Early(before, id) else []) + Arrivals(after, id)
  {
    var toss := Toss(id, proved);
    BufferedExactly(before, id);
    RunBack(before, toss);
    AllHanded(before + [toss], after, id);
  }

  lemma {:induction false} EarlyIsAll<S>(commands: seq<Command<S>>, id: Id)
    requires !Tossed(commands, id)
    ensures Early(commands, id) == Arrivals(commands, id)
  {
    AllWait(commands, id);
    BufferedExactly(commands, id);
  }

  lemma TossFirst<S>(proved: bool, after: seq<Command<S>>, id: Id)
    requires !Tossed(after, id)
    ensures var v := Run([Toss(id, proved)] + after); id in v.instances && v.instances[id] == Arrivals(after, id)
  {
    HandedExactly([], proved, after, id);
    assert [] + [Toss(id, proved)] + after == [Toss(id, proved)] + after;
  }

  /** One toss of a coin among any arrivals: the instance is handed exactly the arrivals, in order and each
      once, as if the toss had come first. A toss that fails hands over only the later ones. */
  lemma OneTossOrder<S>(before: seq<Command<S>>, proved: bool, after: seq<Command<S>>, id: Id)
    requires !Tossed(before, id) && !Tossed(after, id)
    ensures var all, first := before + [Toss(id, proved)] + after, [Toss(id, proved)] + (before + after);
            && id in Run(all).instances && id in Run(first).instances
            && Run(first).instances[id] == Arrivals(before + after, id)
            && (Run(all).instances[id] == Arrivals(before + after, id) <==> proved || Arrivals(before, id) == [])
  {
    EarlyIsAll(before, id);
    HandedExactly(before, proved, after, id);
    ArrivalsConcat(before, after, id);
    TossFirst(proved, before + after, id);
  }

  // A successful toss leaves nothing waiting, then or later.
  lemma NothingWaits<S>(before: seq<Command<S>>, after: seq<Command<S>>, id: Id)
    ensures Waiting(Run(before + [Toss(id, true)] + after), id) == []
  {
    var all := before + [Toss(id, true)] + after;
    assert all[|before|] == Toss(id, true);
    BufferedExactly(all, id);
  }
}
