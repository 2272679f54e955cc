/** One measurement of the NDR engine (perfRun, rampTo, stopAll) as a plan of port operations and reads,
    carried out against a server that may fail or be cancelled at any of them. */
module Traffic {
  import opened Prelude
  import opened Counters

  /** What the engine attempts, in the order it attempts it. */
  datatype Op =
    | Stop(port: int)
    | Start(port: int, rate: real)
    | Update(port: int, rate: real)
    | Sleep(nanos: int)
    | ReadBaseline
    | ReadFinal

  type History = seq<Op>

  /** The outside world. Every answer may depend on everything attempted so far, the current operation last:
      `fails` is an RPC error, or for a sleep the cancellation of the context. */
  datatype Server = Server(fails: History -> bool, counters: History -> Snapshot, queueFull: History -> uint64)

  datatype Config = Config(limits: Limits, pdrError: real, firstNanos: int, iterationNanos: int, drainNanos: int,
                           rampUpTime: real, maxIterations: int, optBinSearch: bool, optBinSearchPercent: real)

  datatype Rig = Rig(server: Server, cfg: Config, ports: seq<int>)

  const SECOND := 1_000_000_000.0
  const RAMP_STEP := 100_000_000

  // ----- the plan

  function Stops(ports: seq<int>): seq<Op> {
    if ports == [] then [] else [Stop(ports[0])] + Stops(ports[1..])
  }

  function Starts(ports: seq<int>, rate: real): seq<Op> {
    if ports == [] then [] else [Start(ports[0], rate)] + Starts(ports[1..], rate)
  }

  function Updates(ports: seq<int>, rate: real): seq<Op> {
    if ports == [] then [] else [Update(ports[0], rate)] + Updates(ports[1..], rate)
  }

  function RampSteps(rampUpTime: real): (steps: int)
    ensures steps >= 1
  {
    if rampUpTime > 0.0 then (rampUpTime * SECOND / RAMP_STEP as real).Floor + 1 else 1
  }

  function RampInterval(rampUpTime: real): int {
    if rampUpTime > 0.0 then (rampUpTime * SECOND / RampSteps(rampUpTime) as real).Floor else RAMP_STEP
  }

  /** The rate of each ramp step, counted from 1. */
  function RampRate(pct: real, steps: int): int -> real
    requires steps >= 1
  {
    i => pct * i as real / steps as real
  }

  /** The increments from step i on. */
  function RampTail(ports: seq<int>, steps: int, interval: int, rate: int -> real, i: int): seq<Op>
    decreases steps + 1 - i
  {
    if i > steps then [] else
      [Sleep(interval)] + Updates(ports, rate(i)) + RampTail(ports, steps, interval, rate, i + 1)
  }

  function RampPlan(ports: seq<int>, rampUpTime: real, pct: real): seq<Op> {
    var steps := RampSteps(rampUpTime);
    Starts(ports, pct / steps as real) +
    RampTail(ports, steps, RampInterval(rampUpTime), RampRate(pct, steps), 2)
  }

  /** Everything between the baseline and the evaluation. */
  function SessionPlan(rig: Rig, pct: real, hold: int): seq<Op> {
    RampPlan(rig.ports, rig.cfg.rampUpTime, pct) + [Sleep(hold)] +
    Stops(rig.ports) + [Sleep(rig.cfg.drainNanos), ReadFinal]
  }

  // ----- carrying a plan out

  datatype Execution = Execution(history: History, ok: bool)

  /** Attempts the plan in order and gives up at the first failure; failing stops are ignored. */
  function Execute(server: Server, h: History, plan: seq<Op>): Execution
    decreases |plan|
  {
    if plan == [] then Execution(h, true) else
      var h' := h + [plan[0]];
      if !plan[0].Stop? && server.fails(h') then Execution(h', false) else Execute(server, h', plan[1..])
  }

  /** A measurement: the operations attempted and the verdict, if it was reached. */
  datatype Attempt = Attempt(history: History, outcome: Option<RunResult>)

  ghost function PerfRun(rig: Rig, h: History, pct: real, hold: int): Attempt {
    if pct <= 0.0 then Attempt(h, Some(ZERO_RUN.(percentage := pct, pass := true))) else
      var ready := Execute(rig.server, h, Stops(rig.ports) + [ReadBaseline]);
      if !ready.ok then Attempt(ready.history, None) else
        var done := Execute(rig.server, ready.history, SessionPlan(rig, pct, hold));
        Attempt(done.history + Stops(rig.ports),
                if done.ok then Some(Evaluated(rig.cfg.limits, pct,
                                               rig.server.counters(ready.history), rig.server.counters(done.history),
                                               rig.server.queueFull(ready.history), rig.server.queueFull(done.history)))
                else None)
  }

  lemma {:induction false} ExecuteAppend(server: Server, h: History, a: seq<Op>, b: seq<Op>)
    ensures Execute(server, h, a + b) ==
            var e := Execute(server, h, a); if e.ok then Execute(server, e.history, b) else e
    decreases |a|
  {
    if a == [] {
      assert a + b == b;
    } else {
      assert (a + b)[1..] == a[1..] + b;
      if a[0].Stop? || !server.fails(h + [a[0]]) {
        ExecuteAppend(server, h + [a[0]], a[1..], b);
      }
    }
  }

  /** Nothing whose failure matters fails along the plan. */
  ghost predicate Clear(server: Server, h: History, plan: seq<Op>) {
    forall i :: 0 <= i < |plan| ==> plan[i].Stop? || !server.fails(h + plan[..i + 1])
  }

  /** An execution is a prefix of its plan, the whole plan exactly when nothing that matters failed. */
  lemma {:induction false} ExecutePrefix(server: Server, h: History, plan: seq<Op>)
    returns (n: nat)
    ensures n <= |plan| && Execute(server, h, plan).history == h + plan[..n]
    ensures Execute(server, h, plan).ok <==> Clear(server, h, plan)
    ensures Execute(server, h, plan).ok ==> n == |plan|
    ensures !Execute(server, h, plan).ok ==> n >= 1 && !plan[n - 1].Stop? && server.fails(h + plan[..n])
    decreases |plan|
  {
    if plan == [] {
      n := 0;
      assert h + plan[..0] == h;
    } else {
      var h' := h + [plan[0]];
      assert plan[..1] == [plan[0]];
      if !plan[0].Stop? && server.fails(h') {
        n := 1;
        assert server.fails(h + plan[..0 + 1]);
      } else {
        var m := ExecutePrefix(server, h', plan[1..]);
        n := m + 1;
        assert plan[..n] == [plan[0]] + plan[1..][..m];
        assert h' + plan[1..][..m] == h + plan[..n];
        forall i | 0 <= i < |plan| - 1
          ensures plan[1..][i] == plan[i + 1] && h' + plan[1..][..i + 1] == h + plan[..i + 2]
        {
          assert plan[..i + 2] == [plan[0]] + plan[1..][..i + 1];
        }
        Shifted(server, h, plan);
      }
    }
  }

  /** Re-indexing the "nothing failed" condition by one operation. */
  lemma Shifted(server: Server, h: History, plan: seq<Op>)
    requires |plan| > 0
    requires plan[0].Stop? || !server.fails(h + plan[..1])
    requires forall i :: 0 <= i < |plan| - 1 ==>
               plan[1..][i] == plan[i + 1] && h + [plan[0]] + plan[1..][..i + 1] == h + plan[..i + 2]
    ensures Clear(server, h + [plan[0]], plan[1..]) <==> Clear(server, h, plan)
  {
    if Clear(server, h + [plan[0]], plan[1..]) {
      forall i | 0 <= i < |plan| ensures plan[i].Stop? || !server.fails(h + plan[..i + 1]) {
        if i > 0 { assert plan[1..][i - 1] == plan[i]; }
      }
    }
    if Clear(server, h, plan) {
      forall i | 0 <= i < |plan| - 1
        ensures plan[1..][i].Stop? || !server.fails(h + [plan[0]] + plan[1..][..i + 1])
      {
        assert plan[i + 1].Stop? || !server.fails(h + plan[..i + 1 + 1]);
      }
    }
  }

  // ----- traffic safety

  predicate Drives(op: Op, port: int) {
    (op.Start? || op.Update?) && op.port == port
  }

  /** After the last start or update of each port there is a stop attempt for it. */
  ghost predicate Quiet(h: History, ports: seq<int>) {
    forall i, p :: 0 <= i < |h| && p in ports && Drives(h[i], p) ==> exists j :: i < j < |h| && h[j] == Stop(p)
  }

  lemma {:induction false} StopsCover(ports: seq<int>)
    ensures |Stops(ports)| == |ports|
    ensures forall i :: 0 <= i < |ports| ==> Stops(ports)[i] == Stop(ports[i])
  {
    if ports != [] {
      StopsCover(ports[1..]);
    }
  }

  /** Stopping all ports quietens any history, and operations that drive nothing keep it quiet. */
  lemma StoppedIsQuiet(h: History, ports: seq<int>, rest: seq<Op>)
    requires forall op, p :: op in rest ==> !Drives(op, p)
    ensures Quiet(h + Stops(ports) + rest, ports)
  {
    StopsCover(ports);
    var all := h + Stops(ports) + rest;
    forall n, p | |h| <= n < |all| ensures !Drives(all[n], p) {
      assert all[n] == if n < |h| + |ports| then Stop(ports[n - |h|]) else rest[n - |h| - |ports|];
    }
    forall i, p | 0 <= i < |all| && p in ports && Drives(all[i], p)
      ensures exists j :: i < j < |all| && all[j] == Stop(p)
    {
      var k :| 0 <= k < |ports| && ports[k] == p;
      assert all[|h| + k] == Stop(p);
    }
  }

  /** For every schedule of failures and cancellations, a measurement leaves every port stopped after it was driven;
      a zero-rate measurement attempts nothing. */
  lemma PerfRunIsSafe(rig: Rig, h: History, pct: real, hold: int)
    ensures pct > 0.0 ==> Quiet(PerfRun(rig, h, pct, hold).history, rig.ports)
    ensures pct <= 0.0 ==> PerfRun(rig, h, pct, hold) == Attempt(h, Some(ZERO_RUN.(percentage := pct, pass := true)))
    ensures h <= PerfRun(rig, h, pct, hold).history
  {
    if pct > 0.0 {
      var opening := Stops(rig.ports) + [ReadBaseline];
      var n := ExecutePrefix(rig.server, h, opening);
      var ready := Execute(rig.server, h, opening);
      StopsCover(rig.ports);
      if !ready.ok {
        assert opening[..n] == opening;
        assert h + opening == h + Stops(rig.ports) + [ReadBaseline];
        StoppedIsQuiet(h, rig.ports, [ReadBaseline]);
      } else {
        var m := ExecutePrefix(rig.server, ready.history, SessionPlan(rig, pct, hold));
        var done := Execute(rig.server, ready.history, SessionPlan(rig, pct, hold));
        StoppedIsQuiet(done.history, rig.ports, []);
        assert done.history + Stops(rig.ports) + [] == done.history + Stops(rig.ports);
      }
    }
  }

  /** A run reaches a verdict exactly when no operation other than a stop fails, and then it attempted this:
      stop, baseline, ramp, hold, stop, drain, final read, stop. */
  lemma PerfRunSucceeds(rig: Rig, h: History, pct: real, hold: int)
    requires pct > 0.0
    ensures var plan := Stops(rig.ports) + [ReadBaseline] + SessionPlan(rig, pct, hold);
            && (PerfRun(rig, h, pct, hold).outcome.Some? <==> Clear(rig.server, h, plan))
            && (PerfRun(rig, h, pct, hold).outcome.Some? ==>
                PerfRun(rig, h, pct, hold).history == h + plan + Stops(rig.ports))
  {
    var opening, session := Stops(rig.ports) + [ReadBaseline], SessionPlan(rig, pct, hold);
    var plan := opening + session;
    ExecuteAppend(rig.server, h, opening, session);
    var n := ExecutePrefix(rig.server, h, plan);
    var m := ExecutePrefix(rig.server, h, opening);
    assert plan[..|plan|] == plan;
    assert PerfRun(rig, h, pct, hold).outcome.Some? == Execute(rig.server, h, plan).ok;
  }

  lemma {:induction false} DrivenOnlyBy(ports: seq<int>, rate: real)
    ensures forall op :: op in Starts(ports, rate) ==> op.Start? && op.port in ports
    ensures forall op :: op in Updates(ports, rate) ==> op.Update? && op.port in ports
  {
    if ports != [] {
      DrivenOnlyBy(ports[1..], rate);
    }
  }

  lemma {:induction false} RampDrives(ports: seq<int>, steps: int, interval: int, rate: int -> real, i: int)
    ensures forall op :: op in RampTail(ports, steps, interval, rate, i) ==>
                         op.Sleep? || (op.Update? && op.port in ports)
    decreases steps + 1 - i
  {
    if i <= steps {
      DrivenOnlyBy(ports, rate(i));
      RampDrives(ports, steps, interval, rate, i + 1);
    }
  }

  /** Operations that drive no port. */
  ghost predicate Idle(ops: seq<Op>) {
    forall op :: op in ops ==> !op.Start? && !op.Update?
  }

  /** In a successful run ports are driven only in the part `ramp` between the two reads; the baseline comes before it,
      and between it and the final read every port is stopped. */
  lemma ReadsBracketTraffic(rig: Rig, h: History, pct: real, hold: int)
    returns (before: seq<Op>, ramp: seq<Op>, settle: seq<Op>, after: seq<Op>)
    requires pct > 0.0 && PerfRun(rig, h, pct, hold).outcome.Some?
    ensures PerfRun(rig, h, pct, hold).history == h + before + [ReadBaseline] + ramp + settle + [ReadFinal] + after
    ensures Idle(before) && Idle(settle) && Idle(after)
    ensures forall op :: op in ramp ==> op.Sleep? || ((op.Start? || op.Update?) && op.port in rig.ports)
    ensures forall p :: p in rig.ports ==> Stop(p) in settle
  {
    PerfRunSucceeds(rig, h, pct, hold);
    StopsIdle(rig.ports);
    var steps := RampSteps(rig.cfg.rampUpTime);
    DrivenOnlyBy(rig.ports, pct / steps as real);
    RampDrives(rig.ports, steps, RampInterval(rig.cfg.rampUpTime), RampRate(pct, steps), 2);
    var stops, held, drain := Stops(rig.ports), [Sleep(hold)], [Sleep(rig.cfg.drainNanos)];
    before, ramp, settle, after := stops, RampPlan(rig.ports, rig.cfg.rampUpTime, pct), held + stops + drain, stops;
    Regroup(h, stops, ramp, held, drain);
  }

  lemma Regroup(h: History, stops: seq<Op>, ramp: seq<Op>, hold: seq<Op>, drain: seq<Op>)
    requires |drain| == 1
    ensures h + (stops + [ReadBaseline] + (ramp + hold + stops + [drain[0], ReadFinal])) + stops
         == h + stops + [ReadBaseline] + ramp + (hold + stops + drain) + [ReadFinal] + stops
  {
    assert [drain[0], ReadFinal] == drain + [ReadFinal];
  }

  lemma {:induction false} StopsIdle(ports: seq<int>)
    ensures Idle(Stops(ports)) && forall p :: p in ports ==> Stop(p) in Stops(ports)
  {
    if ports != [] {
      StopsIdle(ports[1..]);
      assert Stops(ports)[0] == Stop(ports[0]);
      assert Stops(ports)[1..] == Stops(ports[1..]);
    }
  }

  // ----- the ramp schedule

  /** The rates a port is told to send at, in order. */
  function RatesOf(ops: seq<Op>, port: int): seq<real> {
    if ops == [] then [] else
      (if Drives(ops[0], port) then [ops[0].rate] else []) + RatesOf(ops[1..], port)
  }

  function Slept(ops: seq<Op>): int {
    if ops == [] then 0 else (if ops[0].Sleep? then ops[0].nanos else 0) + Slept(ops[1..])
  }

  lemma {:induction false} RatesAppend(a: seq<Op>, b: seq<Op>, port: int)
    ensures RatesOf(a + b, port) == RatesOf(a, port) + RatesOf(b, port)
    decreases |a|
  {
    if a == [] {
      assert a + b == b;
    } else {
      var head := if Drives(a[0], port) then [a[0].rate] else [];
      RatesAppend(a[1..], b, port);
      calc {
        RatesOf(a + b, port);
        { assert (a + b)[1..] == a[1..] + b && (a + b)[0] == a[0]; }
        head + RatesOf(a[1..] + b, port);
        head + (RatesOf(a[1..], port) + RatesOf(b, port));
        RatesOf(a, port) + RatesOf(b, port);
      }
    }
  }

  lemma {:induction false} SleptAppend(a: seq<Op>, b: seq<Op>)
    ensures Slept(a + b) == Slept(a) + Slept(b)
    decreases |a|
  {
    if a == [] {
      assert a + b == b;
    } else {
      assert (a + b)[1..] == a[1..] + b;
      SleptAppend(a[1..], b);
    }
  }

  predicate Distinct(ports: seq<int>) {
    forall i, j :: 0 <= i < j < |ports| ==> ports[i] != ports[j]
  }

  lemma {:induction false} OncePerPort(ports: seq<int>, rate: real, port: int)
    requires Distinct(ports)
    ensures RatesOf(Starts(ports, rate), port) == (if port in ports then [rate] else [])
    ensures RatesOf(Updates(ports, rate), port) == (if port in ports then [rate] else [])
    ensures Slept(Starts(ports, rate)) == Slept(Updates(ports, rate)) == 0
  {
    if ports != [] {
      OncePerPort(ports[1..], rate, port);
      assert Starts(ports, rate)[1..] == Starts(ports[1..], rate);
      assert Updates(ports, rate)[1..] == Updates(ports[1..], rate);
    }
  }

  /** What one increment adds to a port's rates and to the time slept. */
  lemma Rung(ports: seq<int>, interval: int, rate: real, rest: seq<Op>, port: int)
    requires Distinct(ports) && port in ports
    ensures RatesOf([Sleep(interval)] + Updates(ports, rate) + rest, port) == [rate] + RatesOf(rest, port)
    ensures Slept([Sleep(interval)] + Updates(ports, rate) + rest) == interval + Slept(rest)
  {
    var wait, up := [Sleep(interval)], Updates(ports, rate);
    OncePerPort(ports, rate, port);
    RatesAppend(wait + up, rest, port);
    RatesAppend(wait, up, port);
    SleptAppend(wait + up, rest);
    SleptAppend(wait, up);
    assert wait[1..] == [];
  }

  function RatesFrom(rate: int -> real, i: int, steps: int): seq<real>
    decreases steps + 1 - i
  {
    if i > steps then [] else [rate(i)] + RatesFrom(rate, i + 1, steps)
  }

  lemma {:induction false} RatesFromAt(rate: int -> real, i: int, steps: int, n: nat)
    requires i <= steps + 1 && n < steps + 1 - i
    ensures |RatesFrom(rate, i, steps)| == steps + 1 - i && RatesFrom(rate, i, steps)[n] == rate(i + n)
    decreases n
  {
    RatesFromLength(rate, i, steps);
    if n > 0 {
      RatesFromAt(rate, i + 1, steps, n - 1);
      assert RatesFrom(rate, i, steps)[n] == RatesFrom(rate, i + 1, steps)[n - 1];
    }
  }

  lemma {:induction false} RatesFromLength(rate: int -> real, i: int, steps: int)
    requires i <= steps + 1
    ensures |RatesFrom(rate, i, steps)| == steps + 1 - i
    decreases steps + 1 - i
  {
    if i <= steps { RatesFromLength(rate, i + 1, steps); }
  }

  lemma {:induction false} RampTailSchedule(ports: seq<int>, steps: int, interval: int, rate: int -> real,
                                            i: int, port: int)
    requires Distinct(ports) && port in ports && i <= steps + 1
    ensures RatesOf(RampTail(ports, steps, interval, rate, i), port) == RatesFrom(rate, i, steps)
    ensures Slept(RampTail(ports, steps, interval, rate, i)) == (steps + 1 - i) * interval
    decreases steps + 1 - i
  {
    if i <= steps {
      RampTailSchedule(ports, steps, interval, rate, i + 1, port);
      Rung(ports, interval, rate(i), RampTail(ports, steps, interval, rate, i + 1), port);
      Multiple(steps - i, interval);
    }
  }

  lemma Multiple(n: int, x: int)
    ensures (n + 1) * x == x + n * x
  {
  }

  /** Schedule of a ramp whose first rate is that of step 1. */
  lemma RampRates(ports: seq<int>, steps: int, interval: int, rate: int -> real, port: int)
    requires steps >= 1 && Distinct(ports) && port in ports
    ensures var plan := Starts(ports, rate(1)) + RampTail(ports, steps, interval, rate, 2);
            && RatesOf(plan, port) == RatesFrom(rate, 1, steps)
            && Slept(plan) == (steps - 1) * interval
  {
    var first, tail := Starts(ports, rate(1)), RampTail(ports, steps, interval, rate, 2);
    OncePerPort(ports, rate(1), port);
    RampTailSchedule(ports, steps, interval, rate, 2, port);
    RatesAppend(first, tail, port);
    SleptAppend(first, tail);
  }

  /** A failure-free ramp takes every port through the same rates, equal steps up to exactly the target: one more than
      the whole tenths of a second in the ramp time. It waits between any two of them for the ramp time over the number
      of steps, in whole nanoseconds, which is under 100 ms, and in all for less than the ramp time. */
  lemma RampSchedule(ports: seq<int>, rampUpTime: real, pct: real, port: int) returns (interval: int)
    requires Distinct(ports) && port in ports && pct > 0.0 && rampUpTime > 0.0
    ensures var plan := RampPlan(ports, rampUpTime, pct);
            var rates := RatesOf(plan, port);
            var steps := |rates|;
            && steps >= 1 && (steps - 1) as real <= 10.0 * rampUpTime < steps as real
            && rates[0] == pct / steps as real && rates[steps - 1] == pct
            && (forall n :: 0 <= n < steps - 1 ==> rates[n + 1] == rates[n] + pct / steps as real)
            && (forall op :: op in plan && op.Sleep? ==> op.nanos == interval)
            && (steps * interval) as real <= 1_000_000_000.0 * rampUpTime < (steps * (interval + 1)) as real
            && 0 <= interval < 100_000_000 && Slept(plan) == (steps - 1) * interval
            && Slept(plan) as real < 1_000_000_000.0 * rampUpTime
  {
    var steps := RampSteps(rampUpTime);
    interval := RampInterval(rampUpTime);
    StepsAreTenths(rampUpTime);
    DrivenOnlyBy(ports, pct / steps as real);
    TailWaits(ports, steps, interval, RampRate(pct, steps), 2);
    RampTiming(rampUpTime);
    RampRateSteps(pct, steps);
    RampRates(ports, steps, RampInterval(rampUpTime), RampRate(pct, steps), port);
    RatesFromLength(RampRate(pct, steps), 1, steps);
    forall n | 0 <= n < steps ensures RatesFrom(RampRate(pct, steps), 1, steps)[n] == RampRate(pct, steps)(n + 1) {
      RatesFromAt(RampRate(pct, steps), 1, steps, n);
    }
  }

  /** Without a ramp time traffic starts at the target and nothing is waited for. */
  lemma NoRampSchedule(ports: seq<int>, rampUpTime: real, pct: real, port: int)
    requires Distinct(ports) && port in ports && pct > 0.0 && rampUpTime <= 0.0
    ensures var plan := RampPlan(ports, rampUpTime, pct);
            RatesOf(plan, port) == [pct] && forall op :: op in plan ==> op.Start? && op.port in ports
  {
    OncePerPort(ports, pct, port);
    DrivenOnlyBy(ports, pct);
    assert pct / 1 as real == pct;
    assert RampPlan(ports, rampUpTime, pct) == Starts(ports, pct) + [];
    assert Starts(ports, pct) + [] == Starts(ports, pct);
  }

  lemma StepsAreTenths(rampUpTime: real)
    requires rampUpTime > 0.0
    ensures var steps, interval := RampSteps(rampUpTime), RampInterval(rampUpTime);
            && (steps - 1) as real <= 10.0 * rampUpTime < steps as real
            && (steps * interval) as real <= 1_000_000_000.0 * rampUpTime < (steps * (interval + 1)) as real
  {
    var steps, interval := RampSteps(rampUpTime), RampInterval(rampUpTime);
    var total := rampUpTime * SECOND;
    assert total / RAMP_STEP as real == 10.0 * rampUpTime;
    Floored(total, steps, interval);
  }

  lemma Floored(total: real, steps: int, interval: int)
    requires steps >= 1 && interval == (total / steps as real).Floor
    ensures (steps * interval) as real <= total < (steps * (interval + 1)) as real
  {
    Scaled(total, steps as real, interval as real, (interval + 1) as real);
    assert (steps * interval) as real == interval as real * steps as real;
    assert (steps * (interval + 1)) as real == (interval + 1) as real * steps as real;
  }

  lemma Scaled(total: real, s: real, low: real, high: real)
    requires s > 0.0 && low <= total / s < high
    ensures low * s <= total < high * s
  {
    var q := total / s;
    assert q * s == total;
    Stretch(low, q, s);
    Stretch(q, high, s);
  }

  lemma {:induction false} TailWaits(ports: seq<int>, steps: int, interval: int, rate: int -> real, i: int)
    ensures forall op :: op in RampTail(ports, steps, interval, rate, i) && op.Sleep? ==> op.nanos == interval
    decreases steps + 1 - i
  {
    if i <= steps {
      DrivenOnlyBy(ports, rate(i));
      TailWaits(ports, steps, interval, rate, i + 1);
    }
  }

  lemma RampRateSteps(pct: real, steps: int)
    requires steps >= 1 && pct > 0.0
    ensures pct / steps as real > 0.0
    ensures RampRate(pct, steps)(1) == pct / steps as real
    ensures RampRate(pct, steps)(steps) == pct
    ensures forall n :: RampRate(pct, steps)(n + 1) == RampRate(pct, steps)(n) + pct / steps as real
  {
    assert pct * 1 as real == pct;
    LastRate(pct, steps as real);
    forall n ensures RampRate(pct, steps)(n + 1) == RampRate(pct, steps)(n) + pct / steps as real {
      Increment(pct, n, steps);
    }
  }

  lemma LastRate(pct: real, steps: real)
    requires steps > 0.0
    ensures pct * steps / steps == pct
  {
  }

  lemma Increment(pct: real, n: int, steps: int)
    requires pct > 0.0 && steps >= 1
    ensures pct * (n + 1) as real / steps as real == pct * n as real / steps as real + pct / steps as real
    ensures pct / steps as real > 0.0
  {
    var s := steps as real;
    assert pct * (n + 1) as real == pct * n as real + pct;
    assert (pct * n as real + pct) / s == pct * n as real / s + pct / s;
  }

  lemma RampTiming(rampUpTime: real)
    requires rampUpTime > 0.0
    ensures 0 <= RampInterval(rampUpTime) < RAMP_STEP
    ensures ((RampSteps(rampUpTime) - 1) * RampInterval(rampUpTime)) as real < rampUpTime * SECOND
  {
    var total, steps := rampUpTime * SECOND, RampSteps(rampUpTime);
    var each := total / steps as real;
    StepIsShort(total, steps as real, RAMP_STEP as real);
    SleptBelow(steps, RampInterval(rampUpTime), each, total);
  }

  lemma StepIsShort(total: real, steps: real, span: real)
    requires total > 0.0 && span > 0.0 && steps > 0.0 && total / span < steps
    ensures 0.0 <= total / steps < span && total / steps * steps == total
  {
    assert total / span * span == total;
    Stretch(total / span, steps, span);
    assert total / steps * steps == total;
    Shrink(total / steps, span, steps);
  }

  lemma SleptBelow(steps: int, interval: int, each: real, total: real)
    requires steps >= 1 && 0 <= interval && interval as real <= each && each * steps as real == total && total > 0.0
    ensures ((steps - 1) * interval) as real < total
  {
    Stretch(interval as real, each, steps as real);
    assert (steps * interval) as real == interval as real * steps as real;
    assert (steps - 1) * interval == steps * interval - interval;
  }

  lemma Shrink(a: real, b: real, c: real)
    requires c > 0.0 && a * c < b * c
    ensures a < b
  {
  }
}
