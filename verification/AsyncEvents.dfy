/** The async subscriber (pkg/rpc/subscriber.go): published messages are dispatched directly or trigger a pull of queued
    events, whose sequence numbers are checked against the expected one. */
module AsyncEvents {
  import opened Prelude

  datatype AsyncEvent = AsyncEvent(name: string, kind: int, number: uint64, data: seq<byte>)

  /** The reply to get_async_events. */
  datatype PullReply = CallFailed | ReplyUndecodable | Queued(events: seq<AsyncEvent>)

  /** A published message; `reply` is what a pull would return when it arrives. */
  datatype Message = BadFrame | BadPayload | Payload(ev: AsyncEvent, reply: PullReply)

  /** What the subscriber does, in order: dispatches and reported errors. */
  datatype Output = Dispatched(ev: AsyncEvent) | Gap(expected: uint64, got: uint64) | OtherError

  function After(number: uint64): uint64 {
    Add64(number, 1)
  }

  datatype Check = Check(next: uint64, ok: bool)

  /** Zero on either side is a wildcard; the expected number is always resynchronized. */
  function CheckSeq(expected: uint64, got: uint64): Check {
    if expected != 0 && got != 0 && got != expected then Check(After(got), false) else Check(After(got), true)
  }

  datatype State = State(expected: uint64, log: seq<Output>)

  function Take(s: State, ev: AsyncEvent): State {
    var c := CheckSeq(s.expected, ev.number);
    State(c.next, s.log + (if c.ok then [] else [Gap(s.expected, ev.number)]) + [Dispatched(ev)])
  }

  function TakeAll(s: State, events: seq<AsyncEvent>): State
    decreases |events|
  {
    if events == [] then s else TakeAll(Take(s, events[0]), events[1..])
  }

  function Step(s: State, m: Message): State {
    match m
    case BadFrame => s.(log := s.log + [OtherError])
    case BadPayload => s.(log := s.log + [OtherError])
    case Payload(ev, reply) =>
      if ev.name != "" then s.(log := s.log + [Dispatched(ev)])
      else match reply
           case CallFailed => s.(log := s.log + [OtherError])
           case ReplyUndecodable => s.(log := s.log + [OtherError])
           case Queued(events) => TakeAll(s, events)
  }

  function Run(s: State, ms: seq<Message>): State
    decreases |ms|
  {
    if ms == [] then s else Run(Step(s, ms[0]), ms[1..])
  }

  class Subscriber {
    var expected: uint64
    var log: seq<Output>

    constructor ()
      ensures expected == 0 && log == []
    {
      expected, log := 0, [];
    }

    function Now(): State
      reads this
    {
      State(expected, log)
    }

    method Pull(reply: PullReply)
      modifies this
      ensures Now() == match reply
                       case Queued(events) => TakeAll(old(Now()), events)
                       case _ => old(Now()).(log := old(log) + [OtherError])
    {
      if !reply.Queued? {
        log := log + [OtherError];
        return;
      }
      for i := 0 to |reply.events|
        invariant TakeAll(Now(), reply.events[i..]) == TakeAll(old(Now()), reply.events)
      {
        var ev := reply.events[i];
        assert reply.events[i..][0] == ev && reply.events[i..][1..] == reply.events[i + 1..];
        ghost var before := Now();
        if expected != 0 && ev.number != 0 && ev.number != expected {
          log := log + [Gap(expected, ev.number)];
        }
        expected := After(ev.number);
        log := log + [Dispatched(ev)];
        assert Now() == Take(before, ev);
      }
    }

    method Handle(m: Message)
      modifies this
      ensures Now() == Step(old(Now()), m)
    {
      if !m.Payload? {
        log := log + [OtherError];
      } else if m.ev.name == "" {
        Pull(m.reply);
      } else {
        log := log + [Dispatched(m.ev)];
      }
    }
  }

  // ----- what a run amounts to

  function DispatchesOf(log: seq<Output>): seq<AsyncEvent> {
    if log == [] then [] else
      DispatchesOf(log[..|log| - 1]) + (match log[|log| - 1] case Dispatched(ev) => [ev] case _ => [])
  }

  function GapsOf(log: seq<Output>): seq<Output> {
    if log == [] then [] else
      GapsOf(log[..|log| - 1]) + (match log[|log| - 1] case Gap(_, _) => [log[|log| - 1]] case _ => [])
  }

  function ErrorsIn(log: seq<Output>): nat {
    if log == [] then 0 else ErrorsIn(log[..|log| - 1]) + if log[|log| - 1].OtherError? then 1 else 0
  }

  /** Messages that cannot be decoded, and triggers whose pull fails. */
  predicate Fails(m: Message) {
    !m.Payload? || (m.ev.name == "" && !m.reply.Queued?)
  }

  function Failures(ms: seq<Message>): nat {
    if ms == [] then 0 else (if Fails(ms[0]) then 1 else 0) + Failures(ms[1..])
  }

  /** The events a message carries to the dispatcher, and those of them that were pulled. */
  function Carried(m: Message): seq<AsyncEvent> {
    match m
    case Payload(ev, reply) => if ev.name != "" then [ev] else (match reply case Queued(events) => events case _ => [])
    case _ => []
  }

  function PulledIn(m: Message): seq<AsyncEvent> {
    if m.Payload? && m.ev.name == "" then Carried(m) else []
  }

  function AllCarried(ms: seq<Message>): seq<AsyncEvent> {
    if ms == [] then [] else Carried(ms[0]) + AllCarried(ms[1..])
  }

  function AllPulled(ms: seq<Message>): seq<AsyncEvent> {
    if ms == [] then [] else PulledIn(ms[0]) + AllPulled(ms[1..])
  }

  /** The number expected before pulled event i of a whole run. */
  function ExpectedAt(start: uint64, pulled: seq<AsyncEvent>, i: nat): uint64
    requires i <= |pulled|
  {
    if i == 0 then start else (pulled[i - 1].number + 1) % TWO_64
  }

  predicate Mismatch(expected: uint64, got: uint64) {
    expected != 0 && got != 0 && got != expected
  }

  /** The errors a whole run should raise: one at each mismatch that no wildcard excuses. */
  function Mismatches(start: uint64, pulled: seq<AsyncEvent>): seq<Output> {
    if pulled == [] then [] else
      var n := |pulled| - 1;
      var e := ExpectedAt(start, pulled, n);
      Mismatches(start, pulled[..n]) + (if Mismatch(e, pulled[n].number) then [Gap(e, pulled[n].number)] else [])
  }

  lemma LogGrows(log: seq<Output>, o: Output)
    ensures DispatchesOf(log + [o]) == DispatchesOf(log) + (match o case Dispatched(ev) => [ev] case _ => [])
    ensures GapsOf(log + [o]) == GapsOf(log) + (match o case Gap(_, _) => [o] case _ => [])
    ensures ErrorsIn(log + [o]) == ErrorsIn(log) + if o.OtherError? then 1 else 0
  {
    assert (log + [o])[..|log|] == log;
  }

  lemma TakeGrows(s: State, ev: AsyncEvent)
    ensures var s' := Take(s, ev);
            && s'.expected == (ev.number + 1) % TWO_64
            && DispatchesOf(s'.log) == DispatchesOf(s.log) + [ev] && ErrorsIn(s'.log) == ErrorsIn(s.log)
            && GapsOf(s'.log) == GapsOf(s.log) +
                                 (if Mismatch(s.expected, ev.number) then [Gap(s.expected, ev.number)] else [])
  {
    var gap := Gap(s.expected, ev.number);
    if Mismatch(s.expected, ev.number) {
      LogGrows(s.log, gap);
      LogGrows(s.log + [gap], Dispatched(ev));
    } else {
      assert s.log + [] == s.log;
      LogGrows(s.log, Dispatched(ev));
    }
  }

  lemma {:induction false} MismatchesAppend(start: uint64, a: seq<AsyncEvent>, b: seq<AsyncEvent>)
    ensures Mismatches(start, a + b) == Mismatches(start, a) + Mismatches(ExpectedAt(start, a, |a|), b)
    decreases |b|
  {
    if b == [] {
      assert a + b == a;
    } else {
      var n := |b| - 1;
      MismatchesAppend(start, a, b[..n]);
      assert (a + b)[..|a| + n] == a + b[..n];
      assert ExpectedAt(start, a + b, |a| + n) == ExpectedAt(ExpectedAt(start, a, |a|), b, n);
    }
  }

  /** Dispatches so far, errors so far and the number expected next, after taking a series of events. */
  ghost predicate Accounts(s: State, s': State, carried: seq<AsyncEvent>, pulled: seq<AsyncEvent>, failures: nat) {
    && ErrorsIn(s'.log) == ErrorsIn(s.log) + failures
    && DispatchesOf(s'.log) == DispatchesOf(s.log) + carried
    && GapsOf(s'.log) == GapsOf(s.log) + Mismatches(s.expected, pulled)
    && s'.expected == ExpectedAt(s.expected, pulled, |pulled|)
  }

  lemma Associate<T>(a: seq<T>, b: seq<T>, c: seq<T>)
    ensures a + b + c == a + (b + c)
  {
  }

  lemma AccountsCompose(s: State, s1: State, s2: State, c1: seq<AsyncEvent>, p1: seq<AsyncEvent>, n1: nat,
                        c2: seq<AsyncEvent>, p2: seq<AsyncEvent>, n2: nat)
    requires Accounts(s, s1, c1, p1, n1) && Accounts(s1, s2, c2, p2, n2)
    ensures Accounts(s, s2, c1 + c2, p1 + p2, n1 + n2)
  {
    Associate(DispatchesOf(s.log), c1, c2);
    Associate(GapsOf(s.log), Mismatches(s.expected, p1), Mismatches(s1.expected, p2));
    MismatchesAppend(s.expected, p1, p2);
    ExpectedAppend(s.expected, p1, p2);
  }

  lemma ExpectedAppend(start: uint64, a: seq<AsyncEvent>, b: seq<AsyncEvent>)
    ensures ExpectedAt(start, a + b, |a + b|) == ExpectedAt(ExpectedAt(start, a, |a|), b, |b|)
  {
    if b == [] { assert a + b == a; }
  }

  lemma {:induction false} TakeAllAccounts(s: State, events: seq<AsyncEvent>)
    ensures Accounts(s, TakeAll(s, events), events, events, 0)
    decreases |events|
  {
    if events != [] {
      var s1 := Take(s, events[0]);
      TakeGrows(s, events[0]);
      assert [events[0]][..0] == [];
      assert Mismatches(s.expected, []) == [];
      assert Accounts(s, s1, [events[0]], [events[0]], 0);
      TakeAllAccounts(s1, events[1..]);
      AccountsCompose(s, s1, TakeAll(s, events), [events[0]], [events[0]], 0, events[1..], events[1..], 0);
      assert [events[0]] + events[1..] == events;
    }
  }

  lemma OneOutput(s: State, o: Output)
    requires !o.Gap?
    ensures Accounts(s, s.(log := s.log + [o]), if o.Dispatched? then [o.ev] else [], [],
                     if o.OtherError? then 1 else 0)
  {
    LogGrows(s.log, o);
    assert Mismatches(s.expected, []) == [];
  }

  lemma StepAccounts(s: State, m: Message)
    ensures Accounts(s, Step(s, m), Carried(m), PulledIn(m), if Fails(m) then 1 else 0)
  {
    if m.Payload? && m.ev.name == "" && m.reply.Queued? {
      TakeAllAccounts(s, m.reply.events);
    } else if Fails(m) {
      OneOutput(s, OtherError);
    } else {
      OneOutput(s, Dispatched(m.ev));
    }
  }

  /** Over any run, however events are split into batches and interleaved with direct messages and failures: every
      event is dispatched exactly once and in order, gaps are reported exactly at the mismatches of the pulled series,
      and every message or pull that fails is one further error. */
  lemma {:induction false} RunAccounts(s: State, ms: seq<Message>)
    ensures Accounts(s, Run(s, ms), AllCarried(ms), AllPulled(ms), Failures(ms))
    decreases |ms|
  {
    if ms != [] {
      StepAccounts(s, ms[0]);
      RunAccounts(Step(s, ms[0]), ms[1..]);
      AccountsCompose(s, Step(s, ms[0]), Run(s, ms), Carried(ms[0]), PulledIn(ms[0]), if Fails(ms[0]) then 1 else 0,
                      AllCarried(ms[1..]), AllPulled(ms[1..]), Failures(ms[1..]));
    }
  }

  lemma {:induction false} CarriedAppend(a: seq<Message>, b: seq<Message>)
    ensures AllCarried(a + b) == AllCarried(a) + AllCarried(b)
    ensures AllPulled(a + b) == AllPulled(a) + AllPulled(b)
    decreases |a|
  {
    if a == [] {
      assert a + b == b;
    } else {
      CarriedAppend(a[1..], b);
      assert (a + b)[0] == a[0] && (a + b)[1..] == a[1..] + b;
      Associate(Carried(a[0]), AllCarried(a[1..]), AllCarried(b));
      Associate(PulledIn(a[0]), AllPulled(a[1..]), AllPulled(b));
    }
  }

  /** A direct message inserted anywhere in a run is dispatched at its place, and changes neither the errors of the run,
      before it or after it, nor the number expected at its end. */
  lemma DirectIsTransparent(s: State, before: seq<Message>, ev: AsyncEvent, reply: PullReply, after: seq<Message>)
    requires ev.name != ""
    ensures var run, same := Run(s, before + [Payload(ev, reply)] + after), Run(s, before + after);
            && run.expected == same.expected && GapsOf(run.log) == GapsOf(same.log)
            && DispatchesOf(same.log) == DispatchesOf(s.log) + (AllCarried(before) + AllCarried(after))
            && DispatchesOf(run.log) == DispatchesOf(s.log) + (AllCarried(before) + [ev] + AllCarried(after))
  {
    var direct := Payload(ev, reply);
    Inserted(before, direct, after);
    CarriedAppend(before, after);
    RunAccounts(s, before + [direct] + after);
    RunAccounts(s, before + after);
  }

  lemma Inserted(before: seq<Message>, direct: Message, after: seq<Message>)
    requires direct.Payload? && direct.ev.name != ""
    ensures AllCarried(before + [direct] + after) == AllCarried(before) + [direct.ev] + AllCarried(after)
    ensures AllPulled(before + [direct] + after) == AllPulled(before + after)
  {
    assert [direct][1..] == [];
    assert AllCarried([direct]) == [direct.ev] && AllPulled([direct]) == [];
    CarriedAppend(before, [direct]);
    CarriedAppend(before + [direct], after);
    assert AllPulled(before) + [] == AllPulled(before);
    CarriedAppend(before, after);
  }

  predicate Contiguous(events: seq<AsyncEvent>) {
    forall i :: 0 < i < |events| ==> events[i].number == (events[i - 1].number + 1) % TWO_64
  }

  lemma MismatchesOne(start: uint64, ev: AsyncEvent)
    ensures Mismatches(start, [ev]) == if Mismatch(start, ev.number) then [Gap(start, ev.number)] else []
  {
    assert [ev][..0] == [];
    assert Mismatches(start, []) == [];
  }

  /** Only the first event of a contiguous stretch can be out of sequence. */
  lemma {:induction false} StretchMismatches(start: uint64, events: seq<AsyncEvent>)
    requires events != [] && Contiguous(events)
    ensures Mismatches(start, events) == Mismatches(start, [events[0]])
    decreases |events|
  {
    var n := |events| - 1;
    if n == 0 {
      assert events == [events[0]];
    } else {
      StretchMismatches(start, events[..n]);
      assert !Mismatch(ExpectedAt(start, events, n), events[n].number);
    }
  }

  /** A run that pulled two contiguous stretches, in whatever batches and with whatever in between, raises exactly one
      error if numbers are missing between them and neither side of the break is a wildcard, and none otherwise. */
  lemma OneBreakOneError(s: State, ms: seq<Message>, a: seq<AsyncEvent>, b: seq<AsyncEvent>)
    requires AllPulled(ms) == a + b && a != [] && b != [] && Contiguous(a) && Contiguous(b)
    requires !Mismatch(s.expected, a[0].number)
    ensures var e := (a[|a| - 1].number + 1) % TWO_64;
            GapsOf(Run(s, ms).log) == GapsOf(s.log) + (if Mismatch(e, b[0].number) then [Gap(e, b[0].number)] else [])
  {
    var e := (a[|a| - 1].number + 1) % TWO_64;
    RunAccounts(s, ms);
    MismatchesAppend(s.expected, a, b);
    StretchMismatches(s.expected, a);
    MismatchesOne(s.expected, a[0]);
    StretchMismatches(e, b);
    MismatchesOne(e, b[0]);
  }

  // ----- plain numbers

  /** Events numbered one after the other raise no error, however they are batched: by a fresh subscriber from any
      number, by another from the number it expects. */
  lemma ConsecutiveIsSilent(s: State, ms: seq<Message>, first: uint64)
    requires AllPulled(ms) != [] && (s.expected == 0 || s.expected == first || first == 0)
    requires forall i :: 0 <= i < |AllPulled(ms)| ==> AllPulled(ms)[i].number == first + i
    ensures GapsOf(Run(s, ms).log) == GapsOf(s.log)
    ensures Run(s, ms).expected == (first + |AllPulled(ms)|) % TWO_64
  {
    RunAccounts(s, ms);
    ConsecutiveMatches(s.expected, AllPulled(ms), first);
  }

  lemma ConsecutiveMatches(start: uint64, events: seq<AsyncEvent>, first: uint64)
    requires events != [] && (start == 0 || start == first || first == 0)
    requires forall i :: 0 <= i < |events| ==> events[i].number == first + i
    ensures Mismatches(start, events) == [] && ExpectedAt(start, events, |events|) == (first + |events|) % TWO_64
  {
    assert events[0].number == first + 0;
    CountsOn(events, first);
    StretchMismatches(start, events);
    MismatchesOne(start, events[0]);
  }

  lemma CountsOn(events: seq<AsyncEvent>, first: int)
    requires forall i :: 0 <= i < |events| ==> events[i].number == first + i
    ensures Contiguous(events)
  {
    forall i | 0 < i < |events| ensures events[i].number == (events[i - 1].number + 1) % TWO_64 {
      assert events[i].number == first + i && events[i - 1].number == first + (i - 1);
    }
  }

  /** A single pulled event raises no error if it has the expected number or no number, or if none is expected, and
      otherwise one; either way the number after its own is expected next. */
  lemma OneEvent(s: State, ms: seq<Message>, ev: AsyncEvent)
    requires AllPulled(ms) == [ev]
    ensures ev.number == s.expected || ev.number == 0 || s.expected == 0 ==> GapsOf(Run(s, ms).log) == GapsOf(s.log)
    ensures ev.number != s.expected && ev.number != 0 && s.expected != 0 ==>
              GapsOf(Run(s, ms).log) == GapsOf(s.log) + [Gap(s.expected, ev.number)]
    ensures Run(s, ms).expected == (ev.number + 1) % TWO_64
  {
    RunAccounts(s, ms);
    MismatchesOne(s.expected, ev);
  }

  /** Numbers that count on from `first`, and after n events from k further on. */
  ghost predicate Breaks(events: seq<AsyncEvent>, first: uint64, n: nat, k: int) {
    && 0 < n < |events| && k != 0 && first + n < TWO_64 && 0 < first + n + k < TWO_64
    && forall i :: 0 <= i < |events| ==> events[i].number == if i < n then first + i else first + i + k
  }

  lemma BreakSplits(events: seq<AsyncEvent>, first: uint64, n: nat, k: int)
    returns (a: seq<AsyncEvent>, b: seq<AsyncEvent>)
    requires Breaks(events, first, n, k)
    ensures events == a + b && a != [] && b != [] && Contiguous(a) && Contiguous(b)
    ensures a[0].number == first && (a[|a| - 1].number + 1) % TWO_64 == first + n && b[0].number == first + n + k
  {
    a, b := events[..n], events[n..];
    CountsOn(a, first);
    CountsOn(b, first + n + k);
    assert events[0].number == first + 0 && events[n - 1].number == first + (n - 1);
  }

  /** A block of k numbers missing after n events, or repeated where k is negative, raises one error, with the number
      expected and the number that came. */
  lemma MissingBlockIsOneGap(s: State, ms: seq<Message>, first: uint64, n: nat, k: int)
    requires Breaks(AllPulled(ms), first, n, k) && (s.expected == 0 || s.expected == first || first == 0)
    ensures GapsOf(Run(s, ms).log) == GapsOf(s.log) + [Gap(first + n, first + n + k)]
  {
    var a, b := BreakSplits(AllPulled(ms), first, n, k);
    OneBreakOneError(s, ms, a, b);
  }

  /** A gap is reported just before the event that shows it. */
  ghost predicate GapsAnnounce(log: seq<Output>, from: nat) {
    forall i :: from <= i < |log| && log[i].Gap? ==>
      i + 1 < |log| && log[i + 1].Dispatched? && log[i + 1].ev.number == log[i].got
  }

  lemma {:induction false} TakeAllAnnounces(s: State, events: seq<AsyncEvent>, from: nat)
    requires GapsAnnounce(s.log, from)
    ensures GapsAnnounce(TakeAll(s, events).log, from)
    decreases |events|
  {
    if events != [] {
      TakeAllAnnounces(Take(s, events[0]), events[1..], from);
    }
  }

  lemma {:induction false} GapsComeFirst(s: State, ms: seq<Message>, from: nat)
    requires GapsAnnounce(s.log, from)
    ensures GapsAnnounce(Run(s, ms).log, from)
    decreases |ms|
  {
    if ms != [] {
      if ms[0].Payload? && ms[0].ev.name == "" && ms[0].reply.Queued? {
        TakeAllAnnounces(s, ms[0].reply.events, from);
      }
      GapsComeFirst(Step(s, ms[0]), ms[1..], from);
    }
  }
}
