/** The job-done waiter (WaitJobDone in pkg/session/port.go) as a consumer of the event bus, together with every other
    user of the bus, in any interleaving. */
module JobDone {
  import opened Prelude
  import opened Events

  const EVENT_PORT_JOB_DONE: int64 := 4

  /** The goroutine is in its loop, has signalled and returned, or has left the loop because its channel was closed. */
  datatype Phase = Waiting | Signalled | Drained

  /** acts are the bus actions so far, done is what the done channel buffers, sent counts the signals ever sent, and
      blocked is set when a signal finds the done channel full. */
  datatype Sys = Sys(acts: seq<Action>, key: nat, port: int, phase: Phase, done: nat, sent: nat, blocked: bool)

  /** Any bus action of anybody else, one turn of the waiter's loop, or the client taking the signal. */
  datatype Act = Other(act: Action) | Wake | TakeDone

  /** WaitJobDone after the actions `prior`. */
  function Launch(prior: seq<Action>, port: int): Sys {
    Sys(prior + [Subscribe(EVENT_PORT_JOB_DONE)], Run(EMPTY, prior).next, port, Waiting, 0, 0, false)
  }

  /** The done channel has room for one signal. */
  function Signal(s: Sys): Sys {
    if s.done < 1 then s.(phase := Signalled, done := s.done + 1, sent := s.sent + 1) else s.(blocked := true)
  }

  /** One turn of `for ev := range events`, given the state of the channel; a turn on an empty open channel keeps
      waiting. */
  function Turn(s: Sys, c: Chan): Sys {
    if c.buf != [] then
      var s' := s.(acts := s.acts + [Receive(s.key)]);
      if c.buf[0].portID == s.port then Signal(s') else s'
    else if c.closed then s.(phase := Drained)
    else s
  }

  /** Only the waiter receives from its channel. */
  function Do(s: Sys, a: Act): Sys {
    match a
    case Other(x) => if x == Receive(s.key) then s else s.(acts := s.acts + [x])
    case Wake =>
      var b := Run(EMPTY, s.acts);
      if s.phase.Waiting? && !s.blocked && s.key in b.chans then Turn(s, b.chans[s.key]) else s
    case TakeDone => if s.done > 0 then s.(done := s.done - 1) else s
  }

  function Play(s: Sys, acts: seq<Act>): Sys {
    if acts == [] then s else Do(Play(s, acts[..|acts| - 1]), acts[|acts| - 1])
  }

  function Wakes(acts: seq<Act>): nat {
    if acts == [] then 0 else Wakes(acts[..|acts| - 1]) + if acts[|acts| - 1].Wake? then 1 else 0
  }

  ghost predicate NoMatch(evs: seq<Event>, port: int) {
    forall i :: 0 <= i < |evs| ==> evs[i].portID != port
  }

  /** Where the waiter stands, told by its channel's history alone: what it has read, and what it has found there. */
  ghost predicate Stands(s: Sys, l: Ledger) {
    && l.topic == Some(EVENT_PORT_JOB_DONE) && l.taken <= |l.accepted|
    && (forall e :: e in l.accepted ==> e.id == EVENT_PORT_JOB_DONE)
    && !s.blocked && s.done <= s.sent
    && match s.phase
       case Waiting => s.sent == 0 && NoMatch(l.accepted[..l.taken], s.port)
       case Signalled =>
         && s.sent == 1 && l.taken > 0 && l.accepted[l.taken - 1].portID == s.port
         && NoMatch(l.accepted[..l.taken - 1], s.port)
       case Drained => s.sent == 0 && l.cancelled && l.taken == |l.accepted| && NoMatch(l.accepted, s.port)
  }

  ghost predicate Good(s: Sys) {
    Stands(s, History(s.acts, s.key))
  }

  lemma HistoryGrows(acts: seq<Action>, a: Action, key: nat)
    ensures History(acts + [a], key) == Enter(History(acts, key), key, a)
  {
    assert (acts + [a])[..|acts|] == acts;
  }

  lemma LaunchIsGood(prior: seq<Action>, port: int)
    ensures Good(Launch(prior, port))
    ensures History(Launch(prior, port).acts, Launch(prior, port).key).accepted == []
  {
    var key := Run(EMPTY, prior).next;
    BusFollowsHistory(prior, key);
    HistoryGrows(prior, Subscribe(EVENT_PORT_JOB_DONE), key);
  }

  /** What an action of anybody else does to the waiter's history. */
  lemma OtherStands(s: Sys, l: Ledger, a: Action)
    requires Stands(s, l) && a != Receive(s.key)
    requires a.Subscribe? ==> l.issued != s.key
    ensures Stands(s, Enter(l, s.key, a))
    ensures l.accepted <= Enter(l, s.key, a).accepted && Enter(l, s.key, a).taken == l.taken
    ensures l.cancelled ==> Enter(l, s.key, a).cancelled && Enter(l, s.key, a).accepted == l.accepted
  {
    var l' := Enter(l, s.key, a);
    assert l'.accepted[..l.taken] == l.accepted[..l.taken];
  }

  lemma TurnStands(s: Sys, l: Ledger)
    requires Stands(s, l) && s.phase.Waiting?
    ensures var s' := Turn(s, Chan(EVENT_PORT_JOB_DONE, l.accepted[l.taken..], l.cancelled));
            Stands(s', if l.taken < |l.accepted| then Enter(l, s.key, Receive(s.key)) else l)
  {
    if l.taken < |l.accepted| {
      assert l.accepted[..l.taken + 1] == l.accepted[..l.taken] + [l.accepted[l.taken]];
    } else {
      assert l.accepted[..l.taken] == l.accepted;
    }
  }

  /** The channel a good waiter reads, as its history tells it. */
  lemma ChannelOf(s: Sys)
    requires Good(s)
    ensures var l := History(s.acts, s.key); var b := Run(EMPTY, s.acts);
            s.key in b.chans && b.chans[s.key] == Chan(EVENT_PORT_JOB_DONE, l.accepted[l.taken..], l.cancelled) &&
            |b.chans[s.key].buf| <= CAPACITY && l.issued > s.key
  {
    BusFollowsHistory(s.acts, s.key);
    NeverPanics(s.acts);
  }

  /** From s to s': the waiter is the same and its history only grows, and stops growing once it is cancelled; its own
      turn reads one event if there is one, and ends it if there is none and never will be. */
  ghost predicate Advances(s: Sys, l: Ledger, s': Sys, l': Ledger, wake: bool) {
    && s'.key == s.key && s'.port == s.port && s.acts <= s'.acts
    && l.accepted <= l'.accepted && (l.cancelled ==> l'.cancelled && l'.accepted == l.accepted)
    && l'.taken == l.taken + (if wake && s.phase.Waiting? && l.taken < |l.accepted| then 1 else 0)
    && (!s.phase.Waiting? ==> s'.phase == s.phase)
    && (wake && s.phase.Waiting? && l.cancelled && l.taken == |l.accepted| ==> s'.phase.Drained?)
  }

  lemma OtherIsGood(s: Sys, x: Action)
    requires Good(s) && x != Receive(s.key)
    ensures Good(Do(s, Other(x)))
    ensures Advances(s, History(s.acts, s.key), Do(s, Other(x)), History(Do(s, Other(x)).acts, s.key), false)
  {
    ChannelOf(s);
    HistoryGrows(s.acts, x, s.key);
    OtherStands(s, History(s.acts, s.key), x);
  }

  lemma WakeIsGood(s: Sys)
    requires Good(s) && s.phase.Waiting?
    ensures Good(Do(s, Wake))
    ensures Advances(s, History(s.acts, s.key), Do(s, Wake), History(Do(s, Wake).acts, s.key), true)
  {
    ChannelOf(s);
    HistoryGrows(s.acts, Receive(s.key), s.key);
    TurnStands(s, History(s.acts, s.key));
  }

  lemma DoIsGood(s: Sys, a: Act)
    requires Good(s)
    ensures Good(Do(s, a))
    ensures Advances(s, History(s.acts, s.key), Do(s, a), History(Do(s, a).acts, s.key), a.Wake?)
  {
    if a.Other? && a.act != Receive(s.key) {
      OtherIsGood(s, a.act);
    } else if a.Wake? && s.phase.Waiting? {
      WakeIsGood(s);
    }
  }

  lemma {:induction false} PlayIsGood(s: Sys, run: seq<Act>)
    requires Good(s)
    ensures Good(Play(s, run)) && Play(s, run).key == s.key && Play(s, run).port == s.port
    ensures s.acts <= Play(s, run).acts
    decreases |run|
  {
    if run != [] {
      PlayIsGood(s, run[..|run| - 1]);
      DoIsGood(Play(s, run[..|run| - 1]), run[|run| - 1]);
    }
  }

  /** Whatever was accepted since position n was published since then. */
  lemma {:induction false} AcceptedSince(acts: seq<Action>, n: nat, key: nat, e: Event)
    requires n <= |acts| && History(acts[..n], key).accepted == [] && e in History(acts, key).accepted
    ensures exists i :: n <= i < |acts| && acts[i] == Publish(e)
    decreases |acts|
  {
    assert acts[..|acts|] == acts;
    if |acts| > n {
      var before := acts[..|acts| - 1];
      assert before[..n] == acts[..n];
      if e in History(before, key).accepted {
        AcceptedSince(before, n, key, e);
        var i :| n <= i < |before| && before[i] == Publish(e);
        assert acts[i] == Publish(e);
      } else {
        assert acts[|acts| - 1] == Publish(e);
      }
    }
  }

  /** In every run the waiter never blocks on its own signal, sends at most one, and has sent it only if a job-done
      event of its own port was published after it subscribed. */
  lemma SignalsAtMostOnceForItsOwnPort(prior: seq<Action>, port: int, run: seq<Act>)
    ensures var s := Play(Launch(prior, port), run);
            && !s.blocked && s.sent <= 1 && (s.sent == 1 <==> s.phase.Signalled?)
            && (s.sent == 1 ==> exists i, e ::
                  && |prior| < i < |s.acts| && s.acts[i] == Publish(e)
                  && e.id == 4 && e.portID == port)
  {
    var s0 := Launch(prior, port);
    var s := Play(s0, run);
    LaunchIsGood(prior, port);
    PlayIsGood(s0, run);
    if s.phase.Signalled? {
      var l := History(s.acts, s.key);
      var e := l.accepted[l.taken - 1];
      assert s.acts[..|prior| + 1] == s0.acts;
      AcceptedSince(s.acts, |prior| + 1, s.key, e);
    }
  }

  // ----- progress

  /** While an own event is waiting at position i, every turn of the waiter gets it closer. */
  lemma {:induction false} Approaches(s: Sys, more: seq<Act>, i: nat)
    requires Good(s) && s.phase.Waiting?
    requires i < |History(s.acts, s.key).accepted| && History(s.acts, s.key).accepted[i].portID == s.port
    ensures var s' := Play(s, more); var l, l' := History(s.acts, s.key), History(s'.acts, s.key);
            && Good(s') && s'.key == s.key && s'.port == s.port && l.accepted <= l'.accepted
            && (s'.phase.Signalled? || (s'.phase.Waiting? && l.taken + Wakes(more) <= l'.taken))
    decreases |more|
  {
    if more != [] {
      var before := more[..|more| - 1];
      Approaches(s, before, i);
      var s1 := Play(s, before);
      DoIsGood(s1, more[|more| - 1]);
      NotPast(s1, History(s1.acts, s1.key), i);
      NotPast(Do(s1, more[|more| - 1]), History(Do(s1, more[|more| - 1]).acts, s1.key), i);
    } else {
      NotPast(s, History(s.acts, s.key), i);
    }
  }

  /** A waiter that still waits has not read past an own event, and one that drained has none. */
  lemma NotPast(s: Sys, l: Ledger, i: nat)
    requires Stands(s, l) && i < |l.accepted| && l.accepted[i].portID == s.port
    ensures s.phase.Waiting? ==> l.taken <= i
    ensures !s.phase.Drained?
  {
    assert i < l.taken ==> l.accepted[..l.taken][i] == l.accepted[i];
  }

  /** An own event in the channel is signalled once the waiter has been scheduled often enough to reach it, whatever
      everybody else does meanwhile. */
  lemma BufferedIsSignalled(s: Sys, more: seq<Act>, i: nat)
    requires Good(s) && s.phase.Waiting?
    requires i < |History(s.acts, s.key).accepted| && History(s.acts, s.key).accepted[i].portID == s.port
    requires Wakes(more) > i - History(s.acts, s.key).taken
    ensures Play(s, more).phase.Signalled?
  {
    Approaches(s, more, i);
    var s' := Play(s, more);
    NotPast(s', History(s'.acts, s'.key), i);
  }

  lemma {:induction false} Drains(s: Sys, more: seq<Act>)
    requires Good(s) && History(s.acts, s.key).cancelled && NoMatch(History(s.acts, s.key).accepted, s.port)
    requires s.phase.Waiting?
    ensures var s' := Play(s, more); var l, l' := History(s.acts, s.key), History(s'.acts, s.key);
            && Good(s') && s'.key == s.key && s'.port == s.port && l'.accepted == l.accepted && l'.cancelled
            && (s'.phase.Drained? || (s'.phase.Waiting? && l.taken + Wakes(more) <= l'.taken))
    decreases |more|
  {
    if more != [] {
      var before := more[..|more| - 1];
      Drains(s, before);
      var s1 := Play(s, before);
      var s2 := Do(s1, more[|more| - 1]);
      DoIsGood(s1, more[|more| - 1]);
      NotSignalled(s2, History(s2.acts, s2.key));
    }
  }

  lemma NotSignalled(s: Sys, l: Ledger)
    requires Stands(s, l) && NoMatch(l.accepted, s.port)
    ensures !s.phase.Signalled?
  {
  }

  /** After a cancel, the waiter ends once it has been scheduled for every buffered event and once more: having
      signalled if its own event was among those accepted, and having drained its channel otherwise. */
  lemma EndsAfterCancel(s: Sys, more: seq<Act>)
    requires Good(s) && s.phase.Waiting? && History(s.acts, s.key).cancelled
    requires Wakes(more) > |History(s.acts, s.key).accepted| - History(s.acts, s.key).taken
    ensures Play(s, more).phase
            == if NoMatch(History(s.acts, s.key).accepted, s.port) then Drained else Signalled
  {
    var l := History(s.acts, s.key);
    if NoMatch(l.accepted, s.port) {
      Drains(s, more);
    } else {
      var i :| 0 <= i < |l.accepted| && l.accepted[i].portID == s.port;
      BufferedIsSignalled(s, more, i);
    }
  }

  /** A waiter that has ended stays as it is. */
  lemma {:induction false} EndedStays(s: Sys, more: seq<Act>)
    requires Good(s) && !s.phase.Waiting?
    ensures Good(Play(s, more)) && Play(s, more).phase == s.phase
    decreases |more|
  {
    if more != [] {
      EndedStays(s, more[..|more| - 1]);
      DoIsGood(Play(s, more[..|more| - 1]), more[|more| - 1]);
    }
  }

  lemma {:induction false} NothingDropped(offered: seq<Event>, waiting: seq<nat>)
    requires |offered| == |waiting| && forall i :: 0 <= i < |waiting| ==> waiting[i] < CAPACITY
    ensures WithRoom(offered, waiting) == offered
    decreases |offered|
  {
    if offered != [] {
      var n := |offered| - 1;
      NothingDropped(offered[..n], waiting[..n]);
      assert offered[..n] + [offered[n]] == offered;
    }
  }

  lemma FoundIsSignalled(s: Sys, more: seq<Act>, i: nat)
    requires Good(s) && i < |History(s.acts, s.key).accepted| && History(s.acts, s.key).accepted[i].portID == s.port
    requires Wakes(more) > i - History(s.acts, s.key).taken
    ensures Play(s, more).phase.Signalled?
  {
    NotPast(s, History(s.acts, s.key), i);
    if s.phase.Waiting? {
      BufferedIsSignalled(s, more, i);
    } else {
      EndedStays(s, more);
    }
  }

  lemma AllAccepted(acts: seq<Action>, key: nat)
    requires forall i :: 0 <= i < |History(acts, key).waiting| ==> History(acts, key).waiting[i] < CAPACITY
    ensures History(acts, key).accepted == History(acts, key).offered
  {
    AcceptedHadRoom(acts, key);
    NothingDropped(History(acts, key).offered, History(acts, key).waiting);
  }

  /** If the waiter subscribed first and its buffer never overflowed, an own event published before any cancel is always
      signalled once the waiter is scheduled. */
  lemma OwnEventIsSignalled(prior: seq<Action>, port: int, run: seq<Act>, more: seq<Act>, e: Event)
    requires var s := Play(Launch(prior, port), run); var l := History(s.acts, s.key);
             && (forall i :: 0 <= i < |l.waiting| ==> l.waiting[i] < CAPACITY)
             && e in l.offered && e.portID == port && Wakes(more) > |l.offered| - l.taken
    ensures Play(Play(Launch(prior, port), run), more).phase.Signalled?
  {
    var s := Play(Launch(prior, port), run);
    var l := History(s.acts, s.key);
    assert Good(s) && s.port == port by {
      LaunchIsGood(prior, port);
      PlayIsGood(Launch(prior, port), run);
    }
    AllAccepted(s.acts, s.key);
    var i :| 0 <= i < |l.accepted| && l.accepted[i] == e;
    FoundIsSignalled(s, more, i);
  }

  // ----- exactly when an event is missed

  ghost predicate NoOwn(more: seq<Act>, port: int) {
    forall a :: a in more && a.Other? && a.act.Publish? ==>
                  a.act.ev.id != 4 || a.act.ev.portID != port
  }

  lemma {:induction false} NoOwnNoSignal(s: Sys, more: seq<Act>)
    requires Good(s) && NoMatch(History(s.acts, s.key).accepted, s.port) && NoOwn(more, s.port)
    ensures var s' := Play(s, more);
            && Good(s') && s'.key == s.key && s'.port == s.port
            && NoMatch(History(s'.acts, s.key).accepted, s.port) && !s'.phase.Signalled?
    decreases |more|
  {
    if more != [] {
      var last := more[|more| - 1];
      NoOwnNoSignal(s, more[..|more| - 1]);
      var s1 := Play(s, more[..|more| - 1]);
      DoIsGood(s1, last);
      NoNewMatch(s1, last);
      NotSignalled(Do(s1, last), History(Do(s1, last).acts, s1.key));
    } else {
      NotSignalled(s, History(s.acts, s.key));
    }
  }

  lemma NoNewMatch(s: Sys, a: Act)
    requires Good(s) && NoMatch(History(s.acts, s.key).accepted, s.port)
    requires NoOwn([a], s.port)
    ensures NoMatch(History(Do(s, a).acts, s.key).accepted, s.port)
  {
    assert a in [a];
    if a.Other? && a.act != Receive(s.key) {
      HistoryGrows(s.acts, a.act, s.key);
    } else if a.Wake? {
      HistoryGrows(s.acts, Receive(s.key), s.key);
    }
  }

  /** The waiter's history when an own event is published to it. */
  lemma Offered(s: Sys, ev: Event)
    requires Good(s) && s.phase.Waiting? && !History(s.acts, s.key).cancelled && ev.id == EVENT_PORT_JOB_DONE
    ensures var l, s' := History(s.acts, s.key), Do(s, Other(Publish(ev))); var l' := History(s'.acts, s.key);
            && Good(s') && s'.phase.Waiting? && s'.key == s.key && s'.port == s.port
            && l'.taken == l.taken && !l'.cancelled
            && l'.accepted == if |l.accepted| - l.taken < 8 then l.accepted + [ev] else l.accepted
  {
    HistoryGrows(s.acts, Publish(ev), s.key);
    OtherIsGood(s, Publish(ev));
  }

  /** An own event among those accepted is still unread. */
  lemma Unread(s: Sys, l: Ledger, buf: seq<Event>)
    requires Stands(s, l) && s.phase.Waiting? && l.accepted[l.taken..] == buf
    ensures NoMatch(l.accepted, s.port) <==> NoMatch(buf, s.port)
  {
    assert l.accepted == l.accepted[..l.taken] + buf;
  }

  /** Exactly when an own event is signalled: published to a waiter that is subscribed and has not been cancelled,
      with no other own event to come, it is signalled, given eight further turns and one, if and only if there was
      room for it or another own event was buffered already. */
  lemma SignalledIff(s: Sys, ev: Event, more: seq<Act>)
    requires Good(s) && s.phase.Waiting? && !History(s.acts, s.key).cancelled
    requires ev.id == 4 && ev.portID == s.port
    requires NoOwn(more, s.port) && Wakes(more) > 8
    ensures s.key in Run(EMPTY, s.acts).chans
    ensures Play(Do(s, Other(Publish(ev))), more).phase.Signalled? <==>
            var buf := Run(EMPTY, s.acts).chans[s.key].buf; |buf| < 8 || !NoMatch(buf, s.port)
  {
    var l := History(s.acts, s.key);
    var s1 := Do(s, Other(Publish(ev)));
    ChannelOf(s);
    Offered(s, ev);
    Unread(s, l, Run(EMPTY, s.acts).chans[s.key].buf);
    if !NoMatch(l.accepted, s.port) {
      var i :| 0 <= i < |l.accepted| && l.accepted[i].portID == s.port;
      BufferedIsSignalled(s1, more, i);
    } else if |l.accepted| - l.taken < CAPACITY {
      BufferedIsSignalled(s1, more, |l.accepted|);
    } else {
      NoOwnNoSignal(s1, more);
    }
  }

  /** n events of other ports wait unread. */
  ghost predicate Flooded(s: Sys, n: nat) {
    var l := History(s.acts, s.key);
    Good(s) && s.phase.Waiting? && !l.cancelled && l.taken == 0 && |l.accepted| == n && NoMatch(l.accepted, s.port)
  }

  lemma {:induction false} Flood(own: int, flood: seq<Act>)
    requires |flood| <= CAPACITY && NoOwn(flood, own)
    requires forall a :: a in flood ==> a.Other? && a.act.Publish? && a.act.ev.id == EVENT_PORT_JOB_DONE
    ensures Flooded(Play(Launch([], own), flood), |flood|) && Play(Launch([], own), flood).port == own
    decreases |flood|
  {
    if flood == [] {
      LaunchIsGood([], own);
    } else {
      Flood(own, flood[..|flood| - 1]);
      Offered(Play(Launch([], own), flood[..|flood| - 1]), flood[|flood| - 1].act.ev);
    }
  }

  /** Subscribing before the start is not enough: when eight other ports finish before the waiter is scheduled, its own
      port's event is dropped and never signalled. */
  lemma OwnEventCanBeMissed(own: int, other: int, more: seq<Act>)
    requires own != other && NoOwn(more, own)
    ensures var flood := seq(8, _ => Other(Publish(Event(4, other, []))));
            var s := Do(Play(Launch([], own), flood), Other(Publish(Event(4, own, []))));
            !Play(s, more).phase.Signalled?
  {
    var flood := seq(8, _ => Other(Publish(Event(4, other, []))));
    Flood(own, flood);
    var s := Play(Launch([], own), flood);
    var ev := Event(4, own, []);
    Offered(s, ev);
    NoOwnNoSignal(Do(s, Other(Publish(ev))), more);
  }

  // ----- the code

  lemma LaunchSubscribes(prior: seq<Action>, port: int)
    ensures Run(EMPTY, Launch(prior, port).acts) == Step(Run(EMPTY, prior), Subscribe(EVENT_PORT_JOB_DONE))
  {
    assert (prior + [Subscribe(EVENT_PORT_JOB_DONE)])[..|prior|] == prior;
  }

  /** On the bus, a turn of the waiter is a receive. */
  lemma TurnIsReceive(s: Sys)
    requires Good(s) && s.phase.Waiting?
    ensures s.key in Run(EMPTY, s.acts).chans && Do(s, Wake) == Turn(s, Run(EMPTY, s.acts).chans[s.key]) && s.done == 0
    ensures Run(EMPTY, Do(s, Wake).acts) == Step(Run(EMPTY, s.acts), Receive(s.key))
  {
    ChannelOf(s);
    assert (s.acts + [Receive(s.key)])[..|s.acts|] == s.acts;
  }

  /** WaitJobDone's goroutine on a shared bus, which others may use between its turns. */
  class Waiter {
    const bus: EventBus
    const port: int
    const key: nat
    var phase: Phase
    var done: nat
    ghost var acts: seq<Action>
    ghost var sent: nat

    /** acts is what happened on the bus. */
    ghost predicate Valid()
      reads this, bus
    {
      bus.Now() == Run(EMPTY, acts) && Good(State())
    }

    ghost function State(): Sys
      reads this
    {
      Sys(acts, key, port, phase, done, sent, false)
    }

    constructor (bus: EventBus, port: int, ghost prior: seq<Action>)
      requires bus.Now() == Run(EMPTY, prior)
      modifies bus
      ensures this.bus == bus && Valid() && State() == Launch(prior, port)
    {
      assert Sane(bus.Now()) by { NeverPanics(prior); }
      assert Good(Launch(prior, port)) by { LaunchIsGood(prior, port); }
      LaunchSubscribes(prior, port);
      var k := bus.Subscribe(EVENT_PORT_JOB_DONE);
      this.bus, this.port, this.key := bus, port, k;
      phase, done := Waiting, 0;
      acts, sent := prior + [Action.Subscribe(EVENT_PORT_JOB_DONE)], 0;
      new;
      assert State() == Launch(prior, port);
    }

    /** One turn of the loop over the channel. */
    method Turn()
      requires Valid() && phase.Waiting?
      modifies this, bus
      ensures Valid() && State() == Do(old(State()), Wake)
    {
      NeverPanics(acts);
      TurnIsReceive(State());
      WakeIsGood(State());
      var closed := bus.chans[key].closed;
      var ev := bus.Receive(key);
      if ev.Some? {
        acts := acts + [Action.Receive(key)];
        if ev.value.portID == port {
          done := done + 1;
          sent := sent + 1;
          phase := Signalled;
        }
      } else if closed {
        phase := Drained;
      }
    }

    /** Somebody else used the bus: the waiter's account of it goes on. */
    ghost method Observe(a: Action)
      requires bus.Now() == Step(Run(EMPTY, acts), a) && Good(State()) && a != Action.Receive(key)
      modifies this`acts
      ensures Valid() && State() == Do(old(State()), Other(a))
    {
      OtherIsGood(State(), a);
      assert (acts + [a])[..|acts|] == acts;
      acts := acts + [a];
    }

    /** An event published by anybody between two turns. */
    method Meanwhile(ev: Event)
      requires Valid()
      modifies this`acts, bus
      ensures Valid() && State() == Do(old(State()), Other(Action.Publish(ev)))
    {
      NeverPanics(acts);
      bus.Publish(ev);
      Observe(Action.Publish(ev));
    }
  }
}
