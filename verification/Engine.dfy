/** The NDR engine (pkg/ndr/engine.go) step by step: it drives ports, appends to its results and narrows the bracket
    in place. Each method is proved to do what the plans and searches of the Traffic and Search modules say. */
module NdrEngine {
  import opened Prelude
  import opened Counters
  import opened Traffic
  import opened Search

  /** `lab` is the rig's measurement for a given duration, as the search core sees it. */
  ghost predicate Meters(lab: Measure, rig: Rig, hold: int) {
    forall h, pct {:trigger PerfRun(rig, h, pct, hold)} :: lab(h, pct) == PerfRun(rig, h, pct, hold)
  }

  class Engine {
    const rig: Rig
    ghost const probing: Measure
    ghost const lab: Measure
    var history: History
    var iterations: seq<RunResult>

    ghost predicate Ready() {
      Meters(probing, rig, rig.cfg.firstNanos) && Meters(lab, rig, rig.cfg.iterationNanos)
    }

    constructor (rig: Rig)
      ensures this.rig == rig && Ready() && history == [] && iterations == []
    {
      this.rig := rig;
      probing := (h: History, pct: real) => Traffic.PerfRun(rig, h, pct, rig.cfg.firstNanos);
      lab := (h: History, pct: real) => Traffic.PerfRun(rig, h, pct, rig.cfg.iterationNanos);
      history, iterations := [], [];
    }

    /** Attempts one operation; the outcome of a stop is discarded by its callers. */
    method Do(op: Op) returns (ok: bool)
      modifies this`history
      ensures history == old(history) + [op] && ok == !rig.server.fails(history)
    {
      history := history + [op];
      ok := !rig.server.fails(history);
    }

    method StopAll()
      modifies this`history
      ensures history == old(history) + Stops(rig.ports)
    {
      for i := 0 to |rig.ports|
        invariant history + Stops(rig.ports[i..]) == old(history) + Stops(rig.ports)
      {
        var _ := Do(Stop(rig.ports[i]));
        assert history + Stops(rig.ports[i + 1..]) == old(history) + Stops(rig.ports) by {
          assert rig.ports[i..][1..] == rig.ports[i + 1..];
        }
      }
    }

    method StartAll(rate: real) returns (ok: bool)
      modifies this`history
      ensures Execution(history, ok) == Execute(rig.server, old(history), Starts(rig.ports, rate))
    {
      for i := 0 to |rig.ports|
        invariant Execute(rig.server, history, Starts(rig.ports[i..], rate))
               == Execute(rig.server, old(history), Starts(rig.ports, rate))
      {
        assert rig.ports[i..][1..] == rig.ports[i + 1..];
        assert Starts(rig.ports[i..], rate)[1..] == Starts(rig.ports[i + 1..], rate);
        ok := Do(Start(rig.ports[i], rate));
        if !ok { return; }
      }
      ok := true;
    }

    method UpdateAll(rate: real) returns (ok: bool)
      modifies this`history
      ensures Execution(history, ok) == Execute(rig.server, old(history), Updates(rig.ports, rate))
    {
      for i := 0 to |rig.ports|
        invariant Execute(rig.server, history, Updates(rig.ports[i..], rate))
               == Execute(rig.server, old(history), Updates(rig.ports, rate))
      {
        assert rig.ports[i..][1..] == rig.ports[i + 1..];
        assert Updates(rig.ports[i..], rate)[1..] == Updates(rig.ports[i + 1..], rate);
        ok := Do(Update(rig.ports[i], rate));
        if !ok { return; }
      }
      ok := true;
    }

    method RampTo(pct: real) returns (ok: bool)
      modifies this`history
      ensures Execution(history, ok) == Execute(rig.server, old(history), RampPlan(rig.ports, rig.cfg.rampUpTime, pct))
    {
      var steps, interval := 1, RAMP_STEP;
      if rig.cfg.rampUpTime > 0.0 {
        steps := (rig.cfg.rampUpTime * SECOND / RAMP_STEP as real).Floor + 1;
        interval := (rig.cfg.rampUpTime * SECOND / steps as real).Floor;
      }
      ok := Climb(pct / steps as real, steps, interval, RampRate(pct, steps));
    }

    /** The body of rampTo after the schedule is fixed. */
    method Climb(initial: real, steps: int, interval: int, rate: int -> real) returns (ok: bool)
      requires steps >= 1
      modifies this`history
      ensures Execution(history, ok)
           == Execute(rig.server, old(history),
                      Starts(rig.ports, initial) + RampTail(rig.ports, steps, interval, rate, 2))
    {
      ghost var h0 := history;
      ExecuteAppend(rig.server, h0, Starts(rig.ports, initial), RampTail(rig.ports, steps, interval, rate, 2));
      ok := StartAll(initial);
      if !ok { return; }
      ghost var h1 := history;
      for i := 2 to steps + 1
        invariant Execute(rig.server, history, RampTail(rig.ports, steps, interval, rate, i))
               == Execute(rig.server, h1, RampTail(rig.ports, steps, interval, rate, 2))
      {
        ghost var up, rest := Updates(rig.ports, rate(i)), RampTail(rig.ports, steps, interval, rate, i + 1);
        ExecuteAppend(rig.server, history, [Sleep(interval)] + up, rest);
        ExecuteAppend(rig.server, history, [Sleep(interval)], up);
        ExecuteOne(rig.server, history, Sleep(interval));
        ok := Do(Sleep(interval));
        if !ok { return; }
        ok := UpdateAll(rate(i));
        if !ok { return; }
      }
      ok := true;
    }

    /** One measurement; from the baseline on, traffic is stopped on every way out. */
    method PerfRun(pct: real, hold: int) returns (r: Option<RunResult>)
      modifies this`history
      ensures Attempt(history, r) == Traffic.PerfRun(rig, old(history), pct, hold)
    {
      if pct <= 0.0 {
        return Some(ZERO_RUN.(percentage := pct, pass := true));
      }
      ghost var h0 := history;
      StopAll();
      Stopped(rig, h0);
      var ok := Do(ReadBaseline);
      if !ok { return None; }
      var base, baseQF := rig.server.counters(history), rig.server.queueFull(history);
      ghost var h1 := history;
      ok := Session(pct, hold);
      var final, finalQF := rig.server.counters(history), rig.server.queueFull(history);
      StopAll();
      if !ok { return None; }
      var run := Evaluate(rig.cfg.limits, pct, base, final, baseQF, finalQF);
      return Some(run);
    }

    /** Ramp, hold, stop, drain and read: what perfRun does under its deferred stop. */
    method Session(pct: real, hold: int) returns (ok: bool)
      modifies this`history
      ensures Execution(history, ok) == Execute(rig.server, old(history), SessionPlan(rig, pct, hold))
    {
      ghost var ramp := RampPlan(rig.ports, rig.cfg.rampUpTime, pct);
      SessionSplit(rig.server, history, ramp, Sleep(hold), rig.ports, Sleep(rig.cfg.drainNanos));
      ok := RampTo(pct);
      if !ok { return; }
      ok := Do(Sleep(hold));
      if !ok { return; }
      StopAll();
      ok := Do(Sleep(rig.cfg.drainNanos));
      if !ok { return; }
      ok := Do(ReadFinal);
    }

    /** The first run, at line rate; it is reported but not recorded as an iteration. */
    method Probe() returns (r: Option<RunResult>)
      requires Ready()
      modifies this`history
      ensures Attempt(history, r) == probing(old(history), 100.0)
    {
      r := PerfRun(100.0, rig.cfg.firstNanos);
    }

    method Measure(pct: real) returns (r: Option<RunResult>)
      requires Ready()
      modifies this
      ensures Attempt(history, r) == lab(old(history), pct)
      ensures iterations == old(iterations) + (if r.Some? then [r.value] else [])
    {
      r := PerfRun(pct, rig.cfg.iterationNanos);
      if r.Some? {
        iterations := iterations + [r.value];
      }
    }

    /** Narrows [low, high] until it is inside the window or the cap is reached. */
    method BinarySearch(low: real, high: real, bestSeed: real, runSeed: RunResult)
      returns (best: real, bestRun: RunResult, failed: bool)
      requires Ready()
      modifies this
      ensures Ended(SearchFrom(lab, rig.cfg.pdrError, old(history), low, high, bestSeed, runSeed,
                               rig.cfg.maxIterations),
                    best, bestRun, failed, history, old(iterations), iterations)
    {
      var window, cap := rig.cfg.pdrError, rig.cfg.maxIterations;
      ghost var end := SearchFrom(lab, window, history, low, high, bestSeed, runSeed, cap);
      ghost var rest := end;
      var lo, hi := low, high;
      best, bestRun, failed := bestSeed, runSeed, false;
      var i := 0;
      while i < cap && hi - lo > window
        invariant 0 <= i && !failed
        invariant rest == SearchFrom(lab, window, history, lo, hi, best, bestRun, cap - i)
        invariant Resumes(end, rest, old(iterations), iterations)
        decreases cap - i
      {
        var mid := (lo + hi) / 2.0;
        SearchStep(lab, window, history, lo, hi, best, bestRun, cap - i);
        ghost var recorded := iterations;
        var r := Measure(mid);
        if r.None? {
          failed := true;
          return;
        }
        if r.value.pass {
          lo, best, bestRun := mid, mid, r.value;
        } else {
          hi := mid;
        }
        i := i + 1;
        ghost var next := SearchFrom(lab, window, history, lo, hi, best, bestRun, cap - i);
        assert rest == next.After(r.value);
        ResumeStep(end, next, r.value, old(iterations), recorded);
        rest := next;
      }
    }

    method OptBinarySearch(first: RunResult) returns (best: real, bestRun: RunResult, failed: bool)
      requires Ready()
      modifies this
      ensures Ended(OptSearch(lab, rig.cfg, old(history), first),
                    best, bestRun, failed, history, old(iterations), iterations)
    {
      var assumed := 100.0 - first.dropPct;
      var lo := ClampPct(assumed - rig.cfg.optBinSearchPercent);
      var hi := ClampPct(assumed + rig.cfg.optBinSearchPercent);
      best, bestRun, failed := 0.0, ZERO_RUN, true;
      var loRun := Measure(lo);
      if loRun.None? { return; }
      if !loRun.value.pass {
        best, bestRun, failed := BinarySearch(0.0, lo, 0.0, ZERO_RUN);
      } else {
        best, bestRun, failed := OptBinarySearchAbove(lo, hi, loRun.value);
      }
    }

    /** The rest of optBinarySearch once the low edge of the window has passed. */
    method OptBinarySearchAbove(lo: real, hi: real, loRun: RunResult)
      returns (best: real, bestRun: RunResult, failed: bool)
      requires Ready()
      modifies this
      ensures Ended(OptAbove(lab, rig.cfg, old(history), lo, hi, loRun),
                    best, bestRun, failed, history, old(iterations), iterations)
    {
      best, bestRun, failed := 0.0, ZERO_RUN, true;
      var hiRun := Measure(hi);
      if hiRun.None? { return; }
      if hiRun.value.pass {
        best, bestRun, failed := BinarySearch(hi, 100.0, hi, hiRun.value);
      } else {
        best, bestRun, failed := BinarySearch(lo, hi, lo, loRun);
      }
    }

    method Find(active: Option<(seq<int>, seq<int>)>) returns (r: Result<Results, FindError>)
      requires Ready()
      modifies this
      ensures FindEnd(history, r) == Search.Find(probing, lab, rig.cfg, old(history), active)
    {
      iterations := [];
      if active.None? { return Err(ActivePgidsFailed); }
      if |active.value.0 + active.value.1| == 0 { return Err(NoActivePgids); }
      var first := Probe();
      if first.None? { return Err(RunFailed); }
      if first.value.pass { return Ok(Results(first.value, [], 100.0, first.value)); }
      ghost var end := Refine(lab, rig.cfg, history, first.value);
      var ndr, run, failed;
      if rig.cfg.optBinSearch {
        ndr, run, failed := OptBinarySearch(first.value);
      } else {
        ndr, run, failed := BinarySearch(0.0, 100.0, 0.0, ZERO_RUN);
      }
      assert iterations == end.trail;
      if failed { return Err(RunFailed); }
      return Ok(Results(first.value, iterations, ndr, run));
    }
  }

  // ----- glue between the loops and the plans

  /** A method's outcome is that of the search it carries out. */
  ghost predicate Ended(end: SearchEnd, best: real, bestRun: RunResult, failed: bool, history: History,
                        before: seq<RunResult>, now: seq<RunResult>)
  {
    && best == end.best && bestRun == end.bestRun && failed == end.failed
    && history == end.history && now == before + end.trail
  }

  /** The whole search is what was recorded since it began, followed by the rest. */
  ghost predicate Resumes(end: SearchEnd, rest: SearchEnd, before: seq<RunResult>, now: seq<RunResult>) {
    && end.(trail := []) == rest.(trail := [])
    && before + end.trail == now + rest.trail
  }

  lemma ResumeStep(end: SearchEnd, next: SearchEnd, run: RunResult, before: seq<RunResult>, now: seq<RunResult>)
    requires Resumes(end, next.After(run), before, now)
    ensures Resumes(end, next, before, now + [run])
  {
    assert now + ([run] + next.trail) == now + [run] + next.trail;
  }

  /** One turn of the search loop. */
  lemma SearchStep(m: Measure, pdrError: real, h: History, low: real, high: real, best: real, bestRun: RunResult,
                   budget: int)
    requires budget > 0 && high - low > pdrError
    ensures var mid := (low + high) / 2.0;
            var a := m(h, mid);
            SearchFrom(m, pdrError, h, low, high, best, bestRun, budget) ==
            if a.outcome.None? then SearchEnd(best, bestRun, low, high, [], a.history, true)
            else if a.outcome.value.pass
            then SearchFrom(m, pdrError, a.history, mid, high, mid, a.outcome.value, budget - 1).After(a.outcome.value)
            else SearchFrom(m, pdrError, a.history, low, mid, best, bestRun, budget - 1).After(a.outcome.value)
  {
  }

  lemma ExecuteOne(server: Server, h: History, op: Op)
    ensures Execute(server, h, [op]) == Execution(h + [op], op.Stop? || !server.fails(h + [op]))
  {
    assert [op][1..] == [];
  }

  lemma {:induction false} ExecuteStops(server: Server, h: History, ports: seq<int>)
    ensures Execute(server, h, Stops(ports)) == Execution(h + Stops(ports), true)
    decreases |ports|
  {
    if ports != [] {
      assert Stops(ports)[1..] == Stops(ports[1..]);
      ExecuteStops(server, h + [Stop(ports[0])], ports[1..]);
      assert h + [Stop(ports[0])] + Stops(ports[1..]) == h + Stops(ports);
    }
  }

  lemma Stopped(rig: Rig, h: History)
    ensures Execute(rig.server, h, Stops(rig.ports) + [ReadBaseline])
         == Execute(rig.server, h + Stops(rig.ports), [ReadBaseline])
    ensures Execute(rig.server, h + Stops(rig.ports), [ReadBaseline])
         == Execution(h + Stops(rig.ports) + [ReadBaseline], !rig.server.fails(h + Stops(rig.ports) + [ReadBaseline]))
  {
    ExecuteAppend(rig.server, h, Stops(rig.ports), [ReadBaseline]);
    ExecuteStops(rig.server, h, rig.ports);
    ExecuteOne(rig.server, h + Stops(rig.ports), ReadBaseline);
  }

  /** The session's plan, operation by operation. */
  lemma SessionSplit(server: Server, h: History, ramp: seq<Op>, hold: Op, ports: seq<int>, drain: Op)
    requires hold.Sleep? && drain.Sleep?
    ensures Execute(server, h, ramp + [hold] + Stops(ports) + [drain, ReadFinal]) ==
            var a := Execute(server, h, ramp);
            if !a.ok then a else
            var b := a.history + [hold];
            if server.fails(b) then Execution(b, false) else
            var c := b + Stops(ports) + [drain];
            if server.fails(c) then Execution(c, false) else
            Execution(c + [ReadFinal], !server.fails(c + [ReadFinal]))
  {
    ExecuteAppend(server, h, ramp + [hold] + Stops(ports), [drain, ReadFinal]);
    ExecuteAppend(server, h, ramp + [hold], Stops(ports));
    ExecuteAppend(server, h, ramp, [hold]);
    var a := Execute(server, h, ramp);
    ExecuteOne(server, a.history, hold);
    ExecuteStops(server, a.history + [hold], ports);
    var b := a.history + [hold] + Stops(ports);
    assert [drain, ReadFinal][1..] == [ReadFinal];
    ExecuteOne(server, b + [drain], ReadFinal);
  }

  // ----- the theorems of the search, for the engine's own measurement

  lemma LabIsSound(lab: Measure, rig: Rig, hold: int)
    requires Meters(lab, rig, hold)
    ensures AtRate(lab) && KeepsQuiet(lab, rig.ports)
  {
    forall h, pct
      ensures lab(h, pct).outcome.Some? ==> lab(h, pct).outcome.value.percentage == pct
      ensures Quiet(h, rig.ports) ==> Quiet(lab(h, pct).history, rig.ports)
    {
      assert lab(h, pct) == PerfRun(rig, h, pct, hold);
      PerfRunIsSafe(rig, h, pct, hold);
    }
  }

  /** For every server, configuration and set of ports: what Find returns is evidenced and, with the optimized window
      the right way round, the highest passing rate recorded; and whatever happened on the way no port is left driven.
      */
  lemma EngineFindIsSoundAndSafe(probing: Measure, lab: Measure, rig: Rig, h: History,
                                 active: Option<(seq<int>, seq<int>)>)
    requires Meters(probing, rig, rig.cfg.firstNanos) && Meters(lab, rig, rig.cfg.iterationNanos)
    requires Quiet(h, rig.ports)
    ensures var f := Find(probing, lab, rig.cfg, h, active);
            && Quiet(f.history, rig.ports)
            && (f.outcome.Ok? ==>
                var r := f.outcome.value;
                && |r.iterations| <= Budget(rig.cfg.maxIterations) + 2
                && Evidenced(r.ndrPercent, r.ndrRun, [r.firstRun] + r.iterations)
                && (!rig.cfg.optBinSearch || OptLow(rig.cfg, r.firstRun) <= OptHigh(rig.cfg, r.firstRun) ==>
                    Highest(r.ndrPercent, [r.firstRun] + r.iterations)))
  {
    LabIsSound(probing, rig, rig.cfg.firstNanos);
    LabIsSound(lab, rig, rig.cfg.iterationNanos);
    FindIsSafe(probing, lab, rig.ports, rig.cfg, h, active);
    if Find(probing, lab, rig.cfg, h, active).outcome.Ok? {
      FindIsSound(probing, lab, rig.cfg, h, active);
    }
  }
}
