/** The event bus (pkg/session/events.go). Every operation holds the bus mutex and every receive is atomic, so a run
    of any number of goroutines is a sequence of these actions, in any order. */
module Events {
  import opened Prelude

  /** `portID` is what eventPortID finds in the payload, -1 if there is none. */
  datatype Event = Event(id: int64, portID: int, data: seq<byte>)

  /** A subscriber's buffered channel. */
  datatype Chan = Chan(id: int64, buf: seq<Event>, closed: bool)

  const CAPACITY := 8

  /** subs holds the registered keys of each event id; channels outlive their registration. A send on a closed
      channel, or closing one twice, panics. */
  datatype Bus = Bus(next: nat, subs: map<int64, set<nat>>, chans: map<nat, Chan>, panicked: bool)

  datatype Action = Subscribe(id: int64) | Cancel(key: nat) | Publish(ev: Event) | Receive(key: nat)

  const EMPTY := Bus(0, map[], map[], false)

  function Keys(subs: map<int64, set<nat>>, id: int64): set<nat> {
    if id in subs then subs[id] else {}
  }

  predicate Registered(b: Bus, key: nat) {
    key in b.chans && key in Keys(b.subs, b.chans[key].id)
  }

  function Send(c: Chan, ev: Event): Chan {
    if |c.buf| < CAPACITY then c.(buf := c.buf + [ev]) else c
  }

  function Step(b: Bus, a: Action): Bus {
    match a
    case Subscribe(id) =>
      b.(next := b.next + 1, subs := b.subs[id := Keys(b.subs, id) + {b.next}],
         chans := b.chans[b.next := Chan(id, [], false)])
    case Cancel(key) =>
      if !Registered(b, key) then b else
        var c := b.chans[key];
        b.(subs := b.subs[c.id := b.subs[c.id] - {key}],
           chans := b.chans[key := c.(closed := true)],
           panicked := b.panicked || c.closed)
    case Publish(ev) =>
      var targets := Keys(b.subs, ev.id);
      b.(chans := map k | k in b.chans :: if k in targets then Send(b.chans[k], ev) else b.chans[k],
         panicked := b.panicked || exists k :: k in targets && (k !in b.chans || b.chans[k].closed))
    case Receive(key) =>
      if key in b.chans && b.chans[key].buf != []
      then b.(chans := b.chans[key := b.chans[key].(buf := b.chans[key].buf[1..])]) else b
  }

  function Run(b: Bus, acts: seq<Action>): Bus {
    if acts == [] then b else Step(Run(b, acts[..|acts| - 1]), acts[|acts| - 1])
  }

  /** What holds between any two actions: registered channels exist under their own id and are open, others are closed,
      and keys are never reused. */
  ghost predicate Sane(b: Bus) {
    && !b.panicked
    && (forall id, k :: id in b.subs && k in b.subs[id] ==> k in b.chans && b.chans[k].id == id && !b.chans[k].closed)
    && (forall k :: k in b.chans ==>
          k < b.next && |b.chans[k].buf| <= CAPACITY && (b.chans[k].closed || Registered(b, k)))
  }

  lemma SubscribeIsSane(b: Bus, id: int64)
    requires Sane(b)
    ensures Sane(Step(b, Subscribe(id)))
  {
    var b' := Step(b, Subscribe(id));
    assert b.next !in b.chans;
    forall i, k | i in b'.subs && k in b'.subs[i]
      ensures k in b'.chans && b'.chans[k].id == i && !b'.chans[k].closed
    {
      assert k == b.next || (i in b.subs && k in b.subs[i]);
    }
    forall k | k in b'.chans
      ensures k < b'.next && |b'.chans[k].buf| <= CAPACITY && (b'.chans[k].closed || Registered(b', k))
    {
      assert k == b.next || (k in b.chans && (Registered(b, k) ==> Registered(b', k)));
    }
  }

  lemma CancelIsSane(b: Bus, key: nat)
    requires Sane(b)
    ensures Sane(Step(b, Cancel(key)))
  {
    var b' := Step(b, Cancel(key));
    assert forall k :: k in b.chans && k != key && Registered(b, k) ==> Registered(b', k);
  }

  lemma PublishIsSane(b: Bus, ev: Event)
    requires Sane(b)
    ensures Sane(Step(b, Publish(ev)))
  {
    var b' := Step(b, Publish(ev));
    forall k | k in b.chans
      ensures b'.chans[k].id == b.chans[k].id && b'.chans[k].closed == b.chans[k].closed
      ensures |b'.chans[k].buf| <= CAPACITY
      ensures Registered(b', k) <==> Registered(b, k)
    {
    }
  }

  lemma ReceiveIsSane(b: Bus, key: nat)
    requires Sane(b)
    ensures Sane(Step(b, Receive(key)))
  {
    var b' := Step(b, Receive(key));
    assert forall k :: k in b.chans && Registered(b, k) ==> Registered(b', k);
  }

  lemma StepIsSane(b: Bus, a: Action)
    requires Sane(b)
    ensures Sane(Step(b, a))
  {
    match a
    case Subscribe(id) => SubscribeIsSane(b, id);
    case Cancel(key) => CancelIsSane(b, key);
    case Publish(ev) => PublishIsSane(b, ev);
    case Receive(key) => ReceiveIsSane(b, key);
  }

  /** In every interleaving, no send or second close ever hits a closed channel. */
  lemma {:induction false} NeverPanics(acts: seq<Action>)
    ensures Sane(Run(EMPTY, acts))
    decreases |acts|
  {
    if acts != [] {
      NeverPanics(acts[..|acts| - 1]);
      StepIsSane(Run(EMPTY, acts[..|acts| - 1]), acts[|acts| - 1]);
    }
  }

  // ----- a subscriber's history, told without the bus

  /** What the actions so far mean to one key: how many subscriptions were made, what this one is for and whether it was
      cancelled; the matching events published while it stood and how many were waiting at each; those accepted; and how
      many of these were received. */
  datatype Ledger = Ledger(issued: nat, topic: Option<int64>, cancelled: bool, offered: seq<Event>, waiting: seq<nat>,
                           accepted: seq<Event>, taken: nat)

  const BLANK := Ledger(0, None, false, [], [], [], 0)

  function Enter(l: Ledger, key: nat, a: Action): Ledger {
    match a
    case Subscribe(id) => l.(issued := l.issued + 1, topic := if l.issued == key then Some(id) else l.topic)
    case Cancel(k) => if k == key && l.topic.Some? then l.(cancelled := true) else l
    case Publish(ev) =>
      if l.topic != Some(ev.id) || l.cancelled then l else
        var n: nat := if |l.accepted| >= l.taken then |l.accepted| - l.taken else 0;
        l.(offered := l.offered + [ev], waiting := l.waiting + [n],
           accepted := if n < 8 then l.accepted + [ev] else l.accepted)
    case Receive(k) => if k == key && l.taken < |l.accepted| then l.(taken := l.taken + 1) else l
  }

  function History(acts: seq<Action>, key: nat): Ledger {
    if acts == [] then BLANK else Enter(History(acts[..|acts| - 1], key), key, acts[|acts| - 1])
  }

  /** The bus holds for this key exactly what its history says. */
  ghost predicate Reflects(b: Bus, l: Ledger, key: nat) {
    && b.next == l.issued && l.taken <= |l.accepted|
    && (l.topic.Some? <==> key < l.issued)
    && (key in b.chans <==> l.topic.Some?)
    && (l.topic.None? ==> l.accepted == [] && !l.cancelled)
    && (l.topic.Some? ==> b.chans[key] == Chan(l.topic.value, l.accepted[l.taken..], l.cancelled))
  }

  lemma SubscribeReflects(b: Bus, l: Ledger, key: nat, id: int64)
    requires Reflects(b, l, key)
    ensures Reflects(Step(b, Subscribe(id)), Enter(l, key, Subscribe(id)), key)
  {
  }

  lemma CancelReflects(b: Bus, l: Ledger, key: nat, k: nat)
    requires Sane(b) && Reflects(b, l, key)
    ensures Reflects(Step(b, Cancel(k)), Enter(l, key, Cancel(k)), key)
  {
    if k == key && l.topic.Some? {
      assert Registered(b, key) <==> !l.cancelled by { RegisteredIffOpen(b, key); }
    }
    CancelLeavesOthers(b, k, key);
  }

  /** A channel is open exactly while it is registered. */
  lemma RegisteredIffOpen(b: Bus, key: nat)
    requires Sane(b) && key in b.chans
    ensures Registered(b, key) <==> !b.chans[key].closed
  {
  }

  /** What a cancel does to the channels, and that it makes no key. */
  lemma CancelLeavesOthers(b: Bus, k: nat, key: nat)
    ensures var b' := Step(b, Cancel(k));
            && b'.next == b.next && b'.chans.Keys == b.chans.Keys
            && (key in b.chans ==> b'.chans[key] == if k == key && Registered(b, k)
                                                    then b.chans[key].(closed := true) else b.chans[key])
  {
  }

  lemma PublishReflects(b: Bus, l: Ledger, key: nat, ev: Event)
    requires Sane(b) && Reflects(b, l, key)
    ensures Reflects(Step(b, Publish(ev)), Enter(l, key, Publish(ev)), key)
  {
    if l.topic.Some? {
      var c := b.chans[key];
      assert key in Keys(b.subs, ev.id) <==> c.id == ev.id && !l.cancelled by {
        assert !c.closed ==> Registered(b, key);
      }
      assert |c.buf| == |l.accepted| - l.taken;
      assert l.accepted[l.taken..] + [ev] == (l.accepted + [ev])[l.taken..];
    }
  }

  lemma ReceiveReflects(b: Bus, l: Ledger, key: nat, k: nat)
    requires Reflects(b, l, key)
    ensures Reflects(Step(b, Receive(k)), Enter(l, key, Receive(k)), key)
  {
    if k == key && l.taken < |l.accepted| {
      assert l.accepted[l.taken..][1..] == l.accepted[l.taken + 1..];
    }
  }

  lemma StepReflects(b: Bus, l: Ledger, key: nat, a: Action)
    requires Sane(b) && Reflects(b, l, key)
    ensures Reflects(Step(b, a), Enter(l, key, a), key)
  {
    match a
    case Subscribe(id) => SubscribeReflects(b, l, key, id);
    case Cancel(k) => CancelReflects(b, l, key, k);
    case Publish(ev) => PublishReflects(b, l, key, ev);
    case Receive(k) => ReceiveReflects(b, l, key, k);
  }

  /** In every run, every subscriber's channel is what its own history says: what was accepted and not yet received, in
      order, and closed exactly when it was cancelled. */
  lemma {:induction false} BusFollowsHistory(acts: seq<Action>, key: nat)
    ensures Reflects(Run(EMPTY, acts), History(acts, key), key)
    decreases |acts|
  {
    if acts != [] {
      var before := acts[..|acts| - 1];
      BusFollowsHistory(before, key);
      NeverPanics(before);
      StepReflects(Run(EMPTY, before), History(before, key), key, acts[|acts| - 1]);
    }
  }

  /** The events received, in order, as the channel handed them out. */
  function Received(acts: seq<Action>, key: nat): seq<Event> {
    if acts == [] then [] else
      var before, last := acts[..|acts| - 1], acts[|acts| - 1];
      var b := Run(EMPTY, before);
      Received(before, key) +
      (if last == Receive(key) && key in b.chans && b.chans[key].buf != [] then [b.chans[key].buf[0]] else [])
  }

  lemma TakenWasAccepted(acts: seq<Action>, key: nat)
    ensures History(acts, key).taken <= |History(acts, key).accepted|
  {
    BusFollowsHistory(acts, key);
  }

  lemma {:induction false} ReceivedIsTaken(acts: seq<Action>, key: nat)
    ensures History(acts, key).taken <= |History(acts, key).accepted|
    ensures Received(acts, key) == History(acts, key).accepted[..History(acts, key).taken]
    decreases |acts|
  {
    TakenWasAccepted(acts, key);
    if acts != [] {
      var before, last := acts[..|acts| - 1], acts[|acts| - 1];
      ReceivedIsTaken(before, key);
      BusFollowsHistory(before, key);
      TakeOne(History(before, key), key, last);
    }
  }

  /** An action adds to the received events exactly what it takes. */
  lemma TakeOne(l: Ledger, key: nat, a: Action)
    requires l.taken <= |l.accepted|
    ensures var l' := Enter(l, key, a);
            && l'.taken <= |l'.accepted|
            && l'.accepted[..l'.taken] == l.accepted[..l.taken] +
               (if a == Receive(key) && l.taken < |l.accepted| then [l.accepted[l.taken..][0]] else [])
  {
  }

  /** The events that found room. */
  function WithRoom(offered: seq<Event>, waiting: seq<nat>): seq<Event>
    requires |offered| == |waiting|
  {
    if offered == [] then [] else
      var n := |offered| - 1;
      WithRoom(offered[..n], waiting[..n]) + (if waiting[n] < 8 then [offered[n]] else [])
  }

  lemma {:induction false} AcceptedHadRoom(acts: seq<Action>, key: nat)
    ensures var l := History(acts, key);
            && |l.offered| == |l.waiting| && l.accepted == WithRoom(l.offered, l.waiting)
            && forall i :: 0 <= i < |l.waiting| ==> l.waiting[i] <= 8
    decreases |acts|
  {
    if acts != [] {
      var before, last := acts[..|acts| - 1], acts[|acts| - 1];
      AcceptedHadRoom(before, key);
      BusFollowsHistory(before, key);
      NeverPanics(before);
      var l := History(before, key);
      assert l.topic.Some? ==> |Run(EMPTY, before).chans[key].buf| <= CAPACITY;
      OfferOne(l, key, last);
    }
  }

  lemma OfferOne(l: Ledger, key: nat, a: Action)
    requires |l.offered| == |l.waiting| && l.accepted == WithRoom(l.offered, l.waiting)
    requires forall i :: 0 <= i < |l.waiting| ==> l.waiting[i] <= 8
    requires l.topic.Some? ==> |l.accepted| - l.taken <= 8
    ensures var l' := Enter(l, key, a);
            && |l'.offered| == |l'.waiting| && l'.accepted == WithRoom(l'.offered, l'.waiting)
            && forall i :: 0 <= i < |l'.waiting| ==> l'.waiting[i] <= 8
  {
    var l' := Enter(l, key, a);
    if l'.offered != l.offered {
      assert l'.offered[..|l.offered|] == l.offered && l'.waiting[..|l.offered|] == l.waiting;
    }
  }

  /** Delivery, for every interleaving and subscriber: what was received followed by what is buffered is the sequence of
      matching events published between subscribe and cancel, in order, without exactly those that found 8 waiting. */
  lemma Delivery(acts: seq<Action>, key: nat)
    requires key in Run(EMPTY, acts).chans
    ensures var l := History(acts, key);
            && |l.offered| == |l.waiting|
            && Received(acts, key) + Run(EMPTY, acts).chans[key].buf == WithRoom(l.offered, l.waiting)
            && forall i :: 0 <= i < |l.waiting| ==> l.waiting[i] <= 8
  {
    ReceivedIsTaken(acts, key);
    AcceptedHadRoom(acts, key);
    BufferIsBacklog(Run(EMPTY, acts), History(acts, key), key) by { BusFollowsHistory(acts, key); }
  }

  lemma BufferIsBacklog(b: Bus, l: Ledger, key: nat)
    requires Reflects(b, l, key) && key in b.chans
    ensures l.accepted[..l.taken] + b.chans[key].buf == l.accepted
  {
  }

  // ----- subscribers do not disturb each other

  /** Drops every receive and cancel of other subscribers. */
  function Alone(acts: seq<Action>, key: nat): seq<Action> {
    if acts == [] then [] else
      var last := acts[|acts| - 1];
      Alone(acts[..|acts| - 1], key) +
      (if (last.Receive? || last.Cancel?) && last.key != key then [] else [last])
  }

  lemma {:induction false} HistoryIsOwn(acts: seq<Action>, key: nat)
    ensures History(Alone(acts, key), key) == History(acts, key)
    decreases |acts|
  {
    if acts != [] {
      var before, last := acts[..|acts| - 1], acts[|acts| - 1];
      HistoryIsOwn(before, key);
      assert (Alone(before, key) + [last])[..|Alone(before, key)|] == Alone(before, key);
      assert Alone(before, key) + [] == Alone(before, key);
    }
  }

  /** However slow, fast or cancelled the others are, a subscriber's channel and what it received are the same. */
  lemma OthersAreHarmless(acts: seq<Action>, key: nat)
    requires key in Run(EMPTY, acts).chans
    ensures key in Run(EMPTY, Alone(acts, key)).chans
    ensures Run(EMPTY, Alone(acts, key)).chans[key] == Run(EMPTY, acts).chans[key]
    ensures Received(Alone(acts, key), key) == Received(acts, key)
  {
    HistoryIsOwn(acts, key);
    BusFollowsHistory(acts, key);
    BusFollowsHistory(Alone(acts, key), key);
    ReceivedIsTaken(acts, key);
    ReceivedIsTaken(Alone(acts, key), key);
  }

  // ----- the code

  class EventBus {
    var next: nat
    var subs: map<int64, set<nat>>
    var chans: map<nat, Chan>

    constructor ()
      ensures Now() == EMPTY
    {
      next, subs, chans := 0, map[], map[];
    }

    function Now(): Bus
      reads this
    {
      Bus(next, subs, chans, false)
    }

    method Subscribe(id: int64) returns (key: nat)
      requires Sane(Now())
      modifies this
      ensures key == old(next) && Now() == Step(old(Now()), Action.Subscribe(id)) && Sane(Now())
    {
      StepIsSane(Now(), Action.Subscribe(id));
      if id !in subs {
        subs := subs[id := {}];
      }
      key := next;
      next := next + 1;
      subs := subs[id := subs[id] + {key}];
      chans := chans[key := Chan(id, [], false)];
    }

    /** The closure Subscribe returns; it may be called any number of times. */
    method Cancel(key: nat)
      requires Sane(Now()) && key in chans
      modifies this
      ensures Now() == Step(old(Now()), Action.Cancel(key)) && Sane(Now())
    {
      StepIsSane(Now(), Action.Cancel(key));
      var id := chans[key].id;
      if id in subs && key in subs[id] {
        subs := subs[id := subs[id] - {key}];
        assert !chans[key].closed;
        chans := chans[key := chans[key].(closed := true)];
      }
    }

    /** Offers the event to the registered channels in whatever order the map is ranged over. */
    method Publish(ev: Event)
      requires Sane(Now())
      modifies this
      ensures Now() == Step(old(Now()), Action.Publish(ev)) && Sane(Now())
    {
      StepIsSane(Now(), Action.Publish(ev));
      var targets := Keys(subs, ev.id);
      var left := targets;
      while left != {}
        invariant left <= targets
        invariant next == old(next) && subs == old(subs) && chans.Keys == old(chans).Keys
        invariant forall k :: k in chans ==>
          chans[k] == if k in targets && k !in left then Send(old(chans)[k], ev) else old(chans)[k]
        decreases left
      {
        var k :| k in left;
        assert k in subs[ev.id] && !chans[k].closed;
        if |chans[k].buf| < CAPACITY {
          chans := chans[k := chans[k].(buf := chans[k].buf + [ev])];
        }
        left := left - {k};
      }
    }

    /** A consumer's receive that does not block: the oldest buffered event, if any; a closed channel is still
        drained. */
    method Receive(key: nat) returns (ev: Option<Event>)
      requires Sane(Now()) && key in chans
      modifies this
      ensures Now() == Step(old(Now()), Action.Receive(key)) && Sane(Now())
      ensures ev == if old(chans)[key].buf == [] then None else Some(old(chans)[key].buf[0])
    {
      StepIsSane(Now(), Action.Receive(key));
      ev := None;
      if chans[key].buf != [] {
        ev := Some(chans[key].buf[0]);
        chans := chans[key := chans[key].(buf := chans[key].buf[1..])];
      }
    }
  }
}
