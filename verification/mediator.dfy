/** Mediator: colleagues send messages through a `ConcreteMediator`, which
    passes each message to every registered colleague whose `_id` differs
    from the sender's. */
module Mediator {
  import opened Sequences

  /** A colleague, known to the mediator by its `_id`. The back-reference to
      the mediator is the mediator itself here and needs no field. */
  datatype Colleague = Colleague(id: int)

  /** A `ConcreteMediator` and its `_colleague` list, in registration order. */
  datatype Mediator = Mediator(colleagues: seq<Colleague>)

  /** What a colleague prints: "<msg> sent by <id>" or "<msg> received by <id>". */
  datatype Event = Sent(msg: string, colleague: int) | Received(msg: string, colleague: int)

  /** `add`: register a colleague at the end; nothing stops a repeat. */
  function Add(m: Mediator, c: Colleague): (r: Mediator)
    ensures |r.colleagues| == |m.colleagues| + 1
    ensures r.colleagues[..|m.colleagues|] == m.colleagues && r.colleagues[|m.colleagues|] == c
  {
    Mediator(m.colleagues + [c])
  }

  /** The ids of a list of colleagues, in order. */
  function Ids(cs: seq<Colleague>): (ids: seq<int>)
    ensures |ids| == |cs| && forall i :: 0 <= i < |cs| ==> ids[i] == cs[i].id
  {
    seq(|cs|, i requires 0 <= i < |cs| => cs[i].id)
  }

  /** The receipts of `distribute` over a list of colleagues. */
  function DeliverTo(cs: seq<Colleague>, sender: Colleague, msg: string): (r: seq<Event>)
    ensures |r| <= |cs|
    ensures forall e :: e in r ==> e.Received? && e.msg == msg && e.colleague != sender.id
  {
    if |cs| == 0 then []
    else if cs[0].id != sender.id then [Received(msg, cs[0].id)] + DeliverTo(cs[1..], sender, msg)
    else DeliverTo(cs[1..], sender, msg)
  }

  /** `distribute(sender, msg)`: every registered colleague with a different
      id receives the message, in registration order; the sender never does. */
  function Distribute(m: Mediator, sender: Colleague, msg: string): (r: seq<Event>)
    ensures forall e :: e in r ==> e.Received? && e.msg == msg && e.colleague != sender.id
    ensures forall id :: Received(msg, id) in r <==> id in Ids(m.colleagues) && id != sender.id
    ensures |r| + Occurrences(Ids(m.colleagues), sender.id) == |m.colleagues|
  {
    forall id ensures Received(msg, id) in DeliverTo(m.colleagues, sender, msg)
                      <==> id in Ids(m.colleagues) && id != sender.id {
      DeliverMembership(m.colleagues, sender, msg, id);
    }
    DeliverCount(m.colleagues, sender, msg);
    DeliverTo(m.colleagues, sender, msg)
  }

  /** `send(msg)` on a colleague: it announces the message, then the mediator
      distributes it. */
  function Send(m: Mediator, sender: Colleague, msg: string): (r: seq<Event>)
    ensures |r| >= 1 && r[0] == Sent(msg, sender.id)
    ensures r[1..] == Distribute(m, sender, msg)
    ensures forall e :: e in r[1..] ==> e.Received? && e.colleague != sender.id
    ensures forall id :: Received(msg, id) in r <==> id in Ids(m.colleagues) && id != sender.id
  {
    var r := [Sent(msg, sender.id)] + Distribute(m, sender, msg);
    assert r[1..] == Distribute(m, sender, msg);
    r
  }

  /** A colleague id receives the message iff it is in the list and differs
      from the sender's id. */
  lemma {:induction false} DeliverMembership(cs: seq<Colleague>, sender: Colleague, msg: string, id: int)
    ensures Received(msg, id) in DeliverTo(cs, sender, msg) <==> id in Ids(cs) && id != sender.id
  {
    if |cs| > 0 {
      DeliverMembership(cs[1..], sender, msg, id);
      assert Ids(cs) == [cs[0].id] + Ids(cs[1..]);
    }
  }

  /** Every colleague in the list receives, except those sharing the
      sender's id. */
  lemma {:induction false} DeliverCount(cs: seq<Colleague>, sender: Colleague, msg: string)
    ensures |DeliverTo(cs, sender, msg)| + Occurrences(Ids(cs), sender.id) == |cs|
  {
    if |cs| > 0 {
      DeliverCount(cs[1..], sender, msg);
      assert Ids(cs) == [cs[0].id] + Ids(cs[1..]);
    }
  }

  /** Distributing over two groups of colleagues delivers to the first group
      before the second: registration order is kept. */
  lemma {:induction false} DeliverConcat(a: seq<Colleague>, b: seq<Colleague>, sender: Colleague, msg: string)
    ensures DeliverTo(a + b, sender, msg) == DeliverTo(a, sender, msg) + DeliverTo(b, sender, msg)
  {
    if |a| == 0 {
      assert a + b == b;
    } else {
      assert (a + b)[0] == a[0] && (a + b)[1..] == a[1..] + b;
      DeliverConcat(a[1..], b, sender, msg);
    }
  }

  /** With distinct ids and a registered sender, everyone but the sender
      receives the message once. */
  lemma DistributeToAllOthers(m: Mediator, sender: Colleague, msg: string)
    requires Distinct(Ids(m.colleagues)) && sender in m.colleagues
    ensures |Distribute(m, sender, msg)| == |m.colleagues| - 1
  {
    var ids := Ids(m.colleagues);
    var k :| 0 <= k < |m.colleagues| && m.colleagues[k] == sender;
    assert ids == ids[..k] + [sender.id] + ids[k + 1..];
    assert sender.id !in ids[..k] && sender.id !in ids[k + 1..];
    assert multiset(ids)[sender.id] == multiset(ids[..k])[sender.id] + 1 + multiset(ids[k + 1..])[sender.id];
  }

  /** The driver: colleagues 1, 2 and 3 registered in order; colleague 1
      says "Good morning" and colleagues 2 and 3 receive it. */
  lemma DriverSend()
    ensures var m := Add(Add(Add(Mediator([]), Colleague(1)), Colleague(2)), Colleague(3));
            Send(m, Colleague(1), "Good morning")
              == [Sent("Good morning", 1), Received("Good morning", 2), Received("Good morning", 3)]
  {
  }
}
