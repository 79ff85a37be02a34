/** The UI's event bus: bounded queues fed by a broadcast that drops whoever is full, and what
    each subscriber is guaranteed to see over every interleaving of calls. */
module EventBuses {
  import opened Prelude

  const CAPACITY := 32

  /** Every queue ever handed out, by handle, and the handles still on the subscriber list. */
  datatype Bus = Bus(queues: seq<seq<string>>, registered: seq<nat>)

  datatype Op = Subscribe | Unsubscribe(h: nat) | Publish(event: string) | Take(h: nat)

  const EMPTY_BUS := Bus([], [])

  /** `list.remove`: the first occurrence, if there is one. */
  function Without<T(==)>(s: seq<T>, x: T): seq<T> {
    if s == [] then [] else if s[0] == x then s[1..] else [s[0]] + Without(s[1..], x)
  }

  function WithoutEach(s: seq<nat>, gone: seq<nat>): seq<nat> {
    if gone == [] then s else Without(WithoutEach(s, gone[..|gone| - 1]), gone[|gone| - 1])
  }

  /** The handles, in list order, whose queue takes no more. */
  function Full(registered: seq<nat>, queues: seq<seq<string>>): seq<nat> {
    if registered == [] then []
    else
      var front, h := registered[..|registered| - 1], registered[|registered| - 1];
      if h < |queues| && |queues[h]| >= CAPACITY then Full(front, queues) + [h] else Full(front, queues)
  }

  /** A queue after a publish: longer by the event if its subscriber is registered and has room. */
  function Offered(b: Bus, event: string, h: nat): seq<string>
    requires h < |b.queues|
  {
    if h in b.registered && |b.queues[h]| < CAPACITY then b.queues[h] + [event] else b.queues[h]
  }

  function Step(b: Bus, op: Op): Bus {
    match op
    case Subscribe => Bus(b.queues + [[]], b.registered + [|b.queues|])
    case Unsubscribe(h) => b.(registered := Without(b.registered, h))
    case Publish(event) =>
      Bus(seq(|b.queues|, h requires 0 <= h < |b.queues| => Offered(b, event, h)),
          WithoutEach(b.registered, Full(b.registered, b.queues)))
    case Take(h) => if h < |b.queues| && b.queues[h] != [] then b.(queues := b.queues[h := b.queues[h][1..]]) else b
  }

  // ---------------------------------------------------------------- the imperative bus

  class Queue {
    var items: seq<string>

    constructor ()
      ensures items == []
    {
      items := [];
    }

    method PutNowait(event: string) returns (ok: bool)
      modifies this
      ensures ok == (|old(items)| < CAPACITY)
      ensures items == if ok then old(items) + [event] else old(items)
    {
      ok := |items| < CAPACITY;
      if ok { items := items + [event]; }
    }

    method Get() returns (event: Option<string>)
      modifies this
      ensures old(items) == [] ==> event == None && items == []
      ensures old(items) != [] ==> event == Some(old(items)[0]) && items == old(items)[1..]
    {
      if items == [] { return None; }
      event := Some(items[0]);
      items := items[1..];
    }
  }

  class EventBus {
    var subscribers: seq<Queue>
    ghost var made: seq<Queue>
    ghost var handles: seq<nat>

    ghost predicate Valid()
      reads this
    {
      && NoRepeats(made) && NoRepeats(handles)
      && Listed(subscribers, handles, made)
    }

    ghost function View(): Bus
      reads this, made
    {
      Bus(Contents(made), handles)
    }

    constructor ()
      ensures Valid() && View() == EMPTY_BUS
    {
      subscribers, made, handles := [], [], [];
    }

    method Subscribe() returns (q: Queue)
      requires Valid()
      modifies this
      ensures Valid() && View() == Step(old(View()), Op.Subscribe)
      ensures fresh(q) && made == old(made) + [q]
    {
      q := new Queue();
      subscribers := subscribers + [q];
      handles := handles + [|made|];
      made := made + [q];
      assert View().queues == old(View()).queues + [[]];
    }

    method Unsubscribe(q: Queue, ghost h: nat)
      requires Valid() && h < |made| && made[h] == q
      modifies this
      ensures Valid() && View() == Step(old(View()), Op.Unsubscribe(h)) && made == old(made)
    {
      Remove(q, h);
    }

    /** `subscribers.remove(q)`, with a missing queue ignored. */
    method Remove(q: Queue, ghost h: nat)
      requires Valid() && h < |made| && made[h] == q
      modifies this`subscribers, this`handles
      ensures Valid() && handles == Without(old(handles), h)
    {
      WithoutListed(subscribers, handles, made, h);
      WithoutMembers(handles, h);
      subscribers := Without(subscribers, q);
      handles := Without(handles, h);
    }

    method Publish(event: string)
      requires Valid()
      modifies this, made
      ensures Valid() && View() == Step(old(View()), Op.Publish(event)) && made == old(made)
    {
      hide WithoutEach, Full, OfferedTo, Offered;
      ghost var before := View();
      var dead, deadHandles := Offer(event);
      AllOffered(made, before, event);
      RemoveDead(dead, deadHandles);
    }

    method RemoveDead(dead: seq<Queue>, ghost deadHandles: seq<nat>)
      requires Valid() && Listed(dead, deadHandles, made)
      modifies this`subscribers, this`handles
      ensures Valid() && handles == WithoutEach(old(handles), deadHandles)
    {
      for i := 0 to |dead|
        invariant Valid() && handles == WithoutEach(old(handles), deadHandles[..i])
      {
        assert deadHandles[..i + 1][..i] == deadHandles[..i];
        Remove(dead[i], deadHandles[i]);
      }
      assert deadHandles[..|dead|] == deadHandles;
    }

    /** The broadcast itself: every subscriber in turn, collecting those that are full. */
    method Offer(event: string) returns (dead: seq<Queue>, ghost deadHandles: seq<nat>)
      requires Valid()
      modifies made
      ensures OfferedTo(made, old(View()), event, handles)
      ensures deadHandles == Full(handles, old(View()).queues) && Listed(dead, deadHandles, made)
    {
      hide Full, Offered, NoRepeats, OfferedTo;
      dead, deadHandles := [], [];
      ghost var before := View();
      FullAppend([], 0, before.queues);
      NothingOffered(made, before, event);
      for i := 0 to |subscribers|
        invariant Listed(dead, deadHandles, made) && deadHandles == Full(handles[..i], before.queues)
        invariant OfferedTo(made, before, event, handles[..i])
      {
        FullAppend(handles[..i], handles[i], before.queues);
        NextIsNew(handles, i);
        var q := subscribers[i];
        var ok := OfferOne(q, event, made, before, handles[..i], handles[i]);
        if !ok {
          dead := dead + [q];
          deadHandles := deadHandles + [handles[i]];
        }
      }
      assert handles[..|subscribers|] == handles;
    }
  }

  /** The queues part-way through a broadcast: those in `done` have been offered the event. */
  ghost predicate OfferedTo(made: seq<Queue>, before: Bus, event: string, done: seq<nat>)
    reads made
  {
    && |made| == |before.queues|
    && forall h :: 0 <= h < |made| ==> made[h].items == if h in done then Offered(before, event, h) else before.queues[h]
  }

  lemma NothingOffered(made: seq<Queue>, before: Bus, event: string)
    requires before.queues == Contents(made)
    ensures OfferedTo(made, before, event, [])
  {
  }

  lemma AllOffered(made: seq<Queue>, before: Bus, event: string)
    requires OfferedTo(made, before, event, before.registered)
    ensures Contents(made) == Step(before, Op.Publish(event)).queues
  {
  }

  lemma NextIsNew(s: seq<nat>, i: nat)
    requires NoRepeats(s) && i < |s|
    ensures s[i] !in s[..i] && s[..i + 1] == s[..i] + [s[i]]
  {
  }

  method OfferOne(q: Queue, event: string, ghost made: seq<Queue>, ghost before: Bus, ghost done: seq<nat>, ghost h: nat) returns (ok: bool)
    requires NoRepeats(made) && OfferedTo(made, before, event, done)
    requires h < |made| && made[h] == q && h !in done && h in before.registered
    modifies q
    ensures ok == (|before.queues[h]| < CAPACITY)
    ensures OfferedTo(made, before, event, done + [h])
  {
    ok := q.PutNowait(event);
    assert forall k :: 0 <= k < |made| && k != h ==> made[k] != q;
  }

  /** One turn of the stream that serves a subscriber: take the next event, or time out. */
  method Receive(bus: EventBus, q: Queue, ghost h: nat) returns (event: Option<string>)
    requires bus.Valid() && h < |bus.made| && bus.made[h] == q
    modifies q
    ensures bus.Valid() && bus.View() == Step(old(bus.View()), Take(h))
    ensures event == if old(q.items) == [] then None else Some(old(q.items)[0])
  {
    ghost var before := bus.View();
    event := q.Get();
    assert forall k :: 0 <= k < |bus.made| && k != h ==> bus.made[k] != q;
    assert bus.View().queues == Step(before, Take(h)).queues;
  }

  lemma FullAppend(handles: seq<nat>, h: nat, queues: seq<seq<string>>)
    ensures Full([], queues) == []
    ensures Full(handles + [h], queues) == Full(handles, queues) + (if h < |queues| && |queues[h]| >= CAPACITY then [h] else [])
  {
    assert (handles + [h])[..|handles|] == handles;
  }

  predicate Listed(subscribers: seq<Queue>, handles: seq<nat>, made: seq<Queue>) {
    |subscribers| == |handles| && forall i :: 0 <= i < |handles| ==> handles[i] < |made| && subscribers[i] == made[handles[i]]
  }

  ghost function Contents(made: seq<Queue>): (c: seq<seq<string>>)
    reads made
    ensures |c| == |made| && forall i :: 0 <= i < |made| ==> c[i] == made[i].items
  {
    seq(|made|, i requires 0 <= i < |made| reads made => made[i].items)
  }

  lemma PrependNoRepeats<T>(x: T, s: seq<T>)
    requires NoRepeats(s) && x !in s
    ensures NoRepeats([x] + s)
  {
    forall i, j | 0 <= i < j < |s| + 1 ensures ([x] + s)[i] != ([x] + s)[j] {
      if i > 0 { assert s[i - 1] != s[j - 1]; }
    }
  }

  lemma {:induction false} WithoutMembers<T>(s: seq<T>, x: T)
    requires NoRepeats(s)
    ensures NoRepeats(Without(s, x)) && forall k :: k in Without(s, x) <==> k in s && k != x
  {
    if s != [] {
      WithoutMembers(s[1..], x);
      assert s[0] !in s[1..] && s == [s[0]] + s[1..];
      if s[0] != x { PrependNoRepeats(s[0], Without(s[1..], x)); }
    }
  }

  lemma {:induction false} WithoutListed(subscribers: seq<Queue>, handles: seq<nat>, made: seq<Queue>, h: nat)
    requires NoRepeats(made) && NoRepeats(handles) && Listed(subscribers, handles, made) && h < |made|
    ensures Listed(Without(subscribers, made[h]), Without(handles, h), made)
  {
    if handles != [] {
      WithoutListed(subscribers[1..], handles[1..], made, h);
      if handles[0] == h {
        assert subscribers[0] == made[h];
      } else {
        assert subscribers[0] != made[h];
      }
    }
  }

  // ---------------------------------------------------------------- whole runs

  function Run(ops: seq<Op>): Bus {
    if ops == [] then EMPTY_BUS else Step(Run(ops[..|ops| - 1]), ops[|ops| - 1])
  }

  /** Handle h has been handed out. */
  predicate Subscribed(ops: seq<Op>, h: nat) {
    h < |Run(ops).queues|
  }

  /** What subscriber h has taken from its queue. */
  function Received(ops: seq<Op>, h: nat): seq<string> {
    if ops == [] then []
    else
      var front := ops[..|ops| - 1];
      var b := Run(front);
      if ops[|ops| - 1] == Take(h) && h < |b.queues| && b.queues[h] != [] then Received(front, h) + [b.queues[h][0]]
      else Received(front, h)
  }

  /** Everything published since h subscribed. */
  function Published(ops: seq<Op>, h: nat): seq<string> {
    if ops == [] then []
    else
      var front, op := ops[..|ops| - 1], ops[|ops| - 1];
      if op.Publish? && Subscribed(front, h) then Published(front, h) + [op.event] else Published(front, h)
  }

  /** What h has been given: taken already, or waiting in its queue. */
  function Delivered(ops: seq<Op>, h: nat): seq<string>
    requires Subscribed(ops, h)
  {
    Received(ops, h) + Run(ops).queues[h]
  }

  predicate WellFormed(b: Bus) {
    && NoRepeats(b.registered)
    && (forall h :: h in b.registered ==> h < |b.queues|)
    && (forall h :: 0 <= h < |b.queues| ==> |b.queues[h]| <= CAPACITY)
  }

  lemma {:induction false} WithoutEachMembers(s: seq<nat>, gone: seq<nat>)
    requires NoRepeats(s)
    ensures NoRepeats(WithoutEach(s, gone)) && forall k :: k in WithoutEach(s, gone) <==> k in s && k !in gone
  {
    if gone != [] {
      var front := gone[..|gone| - 1];
      WithoutEachMembers(s, front);
      WithoutMembers(WithoutEach(s, front), gone[|gone| - 1]);
      assert gone == front + [gone[|gone| - 1]];
    }
  }

  lemma {:induction false} FullMembers(registered: seq<nat>, queues: seq<seq<string>>)
    ensures forall h :: h in Full(registered, queues) <==> h in registered && h < |queues| && |queues[h]| >= CAPACITY
  {
    if registered != [] {
      var front := registered[..|registered| - 1];
      FullMembers(front, queues);
      assert registered == front + [registered[|registered| - 1]];
    }
  }

  /** Who is registered after a step, and that queues stay within their capacity. */
  lemma StepMembers(b: Bus, op: Op)
    requires WellFormed(b)
    ensures WellFormed(Step(b, op))
    ensures forall h :: h < |b.queues| ==>
              (h in Step(b, op).registered <==>
               h in b.registered && op != Unsubscribe(h) && !(op.Publish? && |b.queues[h]| >= CAPACITY))
    ensures |b.queues| <= |Step(b, op).queues|
  {
    match op
    case Subscribe => assert |b.queues| !in b.registered;
    case Unsubscribe(h) => WithoutMembers(b.registered, h);
    case Publish(event) =>
      FullMembers(b.registered, b.queues);
      WithoutEachMembers(b.registered, Full(b.registered, b.queues));
    case Take(h) =>
  }

  lemma {:induction false} RunWellFormed(ops: seq<Op>)
    ensures WellFormed(Run(ops))
  {
    if ops != [] {
      RunWellFormed(ops[..|ops| - 1]);
      StepMembers(Run(ops[..|ops| - 1]), ops[|ops| - 1]);
    }
  }

  lemma OneMore(ops: seq<Op>, op: Op, h: nat)
    ensures Run(ops + [op]) == Step(Run(ops), op)
    ensures Published(ops + [op], h) == Published(ops, h) + (if op.Publish? && Subscribed(ops, h) then [op.event] else [])
    ensures Received(ops + [op], h) ==
            Received(ops, h) + (if op == Take(h) && Subscribed(ops, h) && Run(ops).queues[h] != [] then [Run(ops).queues[h][0]] else [])
  {
    assert (ops + [op])[..|ops|] == ops;
  }

  /** How one step changes what h has been given. */
  lemma StepDelivers(ops: seq<Op>, op: Op, h: nat)
    requires Subscribed(ops, h)
    ensures Subscribed(ops + [op], h)
    ensures var b := Run(ops);
            Delivered(ops + [op], h) ==
            if op.Publish? && h in b.registered && |b.queues[h]| < CAPACITY then Delivered(ops, h) + [op.event] else Delivered(ops, h)
    ensures Published(ops + [op], h) == if op.Publish? then Published(ops, h) + [op.event] else Published(ops, h)
  {
    hide Run, Received, Published, WithoutEach, Full;
    OneMore(ops, op, h);
    var queue := Run(ops).queues[h];
    if op == Take(h) && queue != [] {
      assert queue == [queue[0]] + queue[1..];
    } else if op.Publish? {
      assert Received(ops, h) + (queue + [op.event]) == Received(ops, h) + queue + [op.event];
    }
  }

  lemma JustSubscribed(ops: seq<Op>, op: Op, h: nat)
    requires !Subscribed(ops, h) && Subscribed(ops + [op], h)
    requires Received(ops, h) == [] && Published(ops, h) == []
    ensures Delivered(ops + [op], h) == [] == Published(ops + [op], h)
  {
    assert (ops + [op])[..|ops|] == ops;
  }

  lemma {:induction false} NothingBeforeSubscribing(ops: seq<Op>, h: nat)
    requires !Subscribed(ops, h)
    ensures Received(ops, h) == [] && Published(ops, h) == []
  {
    if ops != [] {
      var front := ops[..|ops| - 1];
      assert |Run(front).queues| <= |Run(ops).queues|;
      NothingBeforeSubscribing(front, h);
    }
  }

  /** Gap-free delivery: over every interleaving, what a subscriber has received and what waits
      for it is exactly what was published since it subscribed while it is registered, and a
      prefix of that, in order and without gaps, ever after. */
  lemma {:induction false} DeliveryIsGapFree(ops: seq<Op>, h: nat)
    requires Subscribed(ops, h)
    ensures Delivered(ops, h) <= Published(ops, h)
    ensures h in Run(ops).registered ==> Delivered(ops, h) == Published(ops, h)
  {
    var front, op := ops[..|ops| - 1], ops[|ops| - 1];
    assert ops == front + [op];
    if Subscribed(front, h) {
      DeliveryIsGapFree(front, h);
      RunWellFormed(front);
      StepMembers(Run(front), op);
      StepDelivers(front, op, h);
    } else {
      NothingBeforeSubscribing(front, h);
      JustSubscribed(front, op, h);
    }
  }

  /** Subscribing registers a new handle with nothing published or delivered yet, and changes nothing
      for anybody else. */
  lemma SubscribingJoins(ops: seq<Op>, other: nat)
    ensures var h := |Run(ops).queues|;
            && !Subscribed(ops, h) && Subscribed(ops + [Subscribe], h) && h in Run(ops + [Subscribe]).registered
            && Delivered(ops + [Subscribe], h) == [] == Published(ops + [Subscribe], h)
    ensures Subscribed(ops, other) ==>
              && Subscribed(ops + [Subscribe], other) && Delivered(ops + [Subscribe], other) == Delivered(ops, other)
              && (other in Run(ops + [Subscribe]).registered <==> other in Run(ops).registered)
  {
    var h := |Run(ops).queues|;
    OneMore(ops, Subscribe, h);
    NothingBeforeSubscribing(ops, h);
    JustSubscribed(ops, Subscribe, h);
    if Subscribed(ops, other) { StepDelivers(ops, Subscribe, other); }
  }

  /** Exactly when a registered subscriber leaves: it unsubscribes, or an event is published
      while it has 32 events outstanding. */
  lemma LeavesExactlyWhen(ops: seq<Op>, op: Op, h: nat)
    requires Subscribed(ops, h) && h in Run(ops).registered
    ensures h !in Run(ops + [op]).registered <==>
            op == Unsubscribe(h) || (op.Publish? && |Published(ops, h)| - |Received(ops, h)| == 32)
  {
    assert (ops + [op])[..|ops|] == ops;
    RunWellFormed(ops);
    StepMembers(Run(ops), op);
    DeliveryIsGapFree(ops, h);
  }

  /** After leaving, a subscriber is never registered again and is given nothing more: what it
      was given up to then is all it will ever receive. */
  lemma {:induction false} NothingAfterLeaving(ops: seq<Op>, more: seq<Op>, h: nat)
    requires Subscribed(ops, h) && h !in Run(ops).registered
    ensures Subscribed(ops + more, h) && h !in Run(ops + more).registered
    ensures Delivered(ops + more, h) == Delivered(ops, h)
  {
    if more == [] {
      assert ops + more == ops;
    } else {
      var front, op := more[..|more| - 1], more[|more| - 1];
      NothingAfterLeaving(ops, front, h);
      assert ops + more == (ops + front) + [op];
      RunWellFormed(ops + front);
      StepMembers(Run(ops + front), op);
      assert (ops + front + [op])[..|ops + front|] == ops + front;
      StepDelivers(ops + front, op, h);
    }
  }

  /** A subscriber that never lets 32 events pile up is never dropped and misses nothing. */
  lemma {:induction false} KeepingUpMissesNothing(ops: seq<Op>, more: seq<Op>, h: nat)
    requires Subscribed(ops, h) && h in Run(ops).registered
    requires Unsubscribe(h) !in more
    requires forall i :: 0 <= i < |more| ==> Outstanding(ops + more[..i], h) < 32
    ensures h in Run(ops + more).registered && Subscribed(ops + more, h)
    ensures Delivered(ops + more, h) == Published(ops + more, h)
  {
    hide Run, Received, Published;
    if more == [] {
      assert ops + more == ops;
      DeliveryIsGapFree(ops, h);
    } else {
      var front, op := more[..|more| - 1], more[|more| - 1];
      forall i | 0 <= i < |front| ensures Outstanding(ops + front[..i], h) < 32 {
        assert front[..i] == more[..i];
      }
      assert Unsubscribe(h) !in front && op in more;
      KeepingUpMissesNothing(ops, front, h);
      assert ops + more == (ops + front) + [op];
      assert front == more[..|front|];
      LeavesExactlyWhen(ops + front, op, h);
      StepDelivers(ops + front, op, h);
      DeliveryIsGapFree(ops + more, h);
    }
  }

  function Outstanding(ops: seq<Op>, h: nat): int {
    |Published(ops, h)| - |Received(ops, h)|
  }
}
