/** The no-drop-rate search (search, binarySearch, optBinarySearch, Find). Like the search core of the client it is
    parametric in the measurement: any function of the operations attempted so far and the rate. */
module Search {
  import opened Prelude
  import opened Counters
  import opened Traffic

  type Measure = (History, real) -> Attempt

  /** Where a binary search ended: the answer, the final bracket, the runs recorded and whether a run failed. */
  datatype SearchEnd = SearchEnd(best: real, bestRun: RunResult, low: real, high: real,
                                 trail: seq<RunResult>, history: History, failed: bool)
  {
    function After(run: RunResult): SearchEnd {
      this.(trail := [run] + trail)
    }
  }

  function SearchFrom(m: Measure, pdrError: real, h: History, low: real, high: real, best: real, bestRun: RunResult,
                      budget: int): SearchEnd
    decreases budget
  {
    if budget <= 0 || high - low <= pdrError then SearchEnd(best, bestRun, low, high, [], h, false) else
      var mid := (low + high) / 2.0;
      var a := m(h, mid);
      match a.outcome
      case None => SearchEnd(best, bestRun, low, high, [], a.history, true)
      case Some(run) =>
        (if run.pass then SearchFrom(m, pdrError, a.history, mid, high, mid, run, budget - 1)
         else SearchFrom(m, pdrError, a.history, low, mid, best, bestRun, budget - 1)).After(run)
  }

  function ClampPct(v: real): real {
    if v < 0.0 then 0.0 else if v > 100.0 then 100.0 else v
  }

  function OptLow(cfg: Config, first: RunResult): real {
    ClampPct(100.0 - first.dropPct - cfg.optBinSearchPercent)
  }

  function OptHigh(cfg: Config, first: RunResult): real {
    ClampPct(100.0 - first.dropPct + cfg.optBinSearchPercent)
  }

  /** The optimized search once its low edge has passed. */
  function OptAbove(m: Measure, cfg: Config, h: History, lo: real, hi: real, loRun: RunResult): SearchEnd {
    var b := m(h, hi);
    if b.outcome.None? then SearchEnd(0.0, ZERO_RUN, lo, hi, [], b.history, true) else
      var hiRun := b.outcome.value;
      (if hiRun.pass then SearchFrom(m, cfg.pdrError, b.history, hi, 100.0, hi, hiRun, cfg.maxIterations)
       else SearchFrom(m, cfg.pdrError, b.history, lo, hi, lo, loRun, cfg.maxIterations)).After(hiRun)
  }

  function OptSearch(m: Measure, cfg: Config, h: History, first: RunResult): SearchEnd {
    var lo, hi := OptLow(cfg, first), OptHigh(cfg, first);
    var a := m(h, lo);
    if a.outcome.None? then SearchEnd(0.0, ZERO_RUN, lo, hi, [], a.history, true) else
      var loRun := a.outcome.value;
      (if !loRun.pass then SearchFrom(m, cfg.pdrError, a.history, 0.0, lo, 0.0, ZERO_RUN, cfg.maxIterations)
       else OptAbove(m, cfg, a.history, lo, hi, loRun)).After(loRun)
  }

  datatype Results = Results(firstRun: RunResult, iterations: seq<RunResult>, ndrPercent: real, ndrRun: RunResult)

  datatype FindError = ActivePgidsFailed | NoActivePgids | RunFailed

  datatype FindEnd = FindEnd(history: History, outcome: Result<Results, FindError>)

  /** The search Find runs once the probe at 100% has failed. */
  function Refine(m: Measure, cfg: Config, h: History, first: RunResult): SearchEnd {
    if cfg.optBinSearch then OptSearch(m, cfg, h, first)
    else SearchFrom(m, cfg.pdrError, h, 0.0, 100.0, 0.0, ZERO_RUN, cfg.maxIterations)
  }

  /** `probing` measures for the duration of the first run and `m` for that of an iteration; `active` is the reply to
      get_active_pgids: flow-stat and latency groups, or a failed call. */
  function Find(probing: Measure, m: Measure, cfg: Config, h: History, active: Option<(seq<int>, seq<int>)>): FindEnd
  {
    if active.None? then FindEnd(h, Err(ActivePgidsFailed)) else
    if active.value.0 + active.value.1 == [] then FindEnd(h, Err(NoActivePgids)) else
      var probe := probing(h, 100.0);
      if probe.outcome.None? then FindEnd(probe.history, Err(RunFailed)) else
        var first := probe.outcome.value;
        if first.pass then FindEnd(probe.history, Ok(Results(first, [], 100.0, first))) else
          var end := Refine(m, cfg, probe.history, first);
          FindEnd(end.history,
                  if end.failed then Err(RunFailed) else Ok(Results(first, end.trail, end.best, end.bestRun)))
  }

  // ----- what the bracket does, whatever is measured

  /** x over 2^n. */
  function Halve(x: real, n: nat): real
    decreases n
  {
    if n == 0 then x else Halve(x / 2.0, n - 1)
  }

  lemma {:induction false} HalveMonotone(x: real, y: real, n: nat)
    requires x <= y
    ensures Halve(x, n) <= Halve(y, n)
    decreases n
  {
    if n > 0 { HalveMonotone(x / 2.0, y / 2.0, n - 1); }
  }

  function Budget(n: int): nat {
    if n < 0 then 0 else n
  }

  /** `n` recorded runs have halved an initial width `n` times; no earlier width was inside the window, and the last
      one is unless the cap was reached or a run failed. */
  ghost predicate Halved(end: SearchEnd, width: real, pdrError: real, cap: nat) {
    var n := |end.trail|;
    && end.high - end.low == Halve(width, n)
    && n <= cap
    && (forall i :: 0 <= i < n ==> Halve(width, i) > pdrError)
    && (!end.failed ==> n == cap || Halve(width, n) <= pdrError)
  }

  /** Every recorded run halves the bracket, and the search stops at the earlier of the cap and the window. */
  lemma {:induction false} BracketHalves(m: Measure, pdrError: real, h: History, low: real, high: real,
                                         best: real, bestRun: RunResult, budget: int)
    ensures Halved(SearchFrom(m, pdrError, h, low, high, best, bestRun, budget), high - low, pdrError, Budget(budget))
    decreases budget
  {
    if budget > 0 && high - low > pdrError {
      var mid := (low + high) / 2.0;
      var a := m(h, mid);
      if a.outcome.Some? {
        var run := a.outcome.value;
        if run.pass {
          BracketHalves(m, pdrError, a.history, mid, high, mid, run, budget - 1);
          HalvedOnce(SearchFrom(m, pdrError, a.history, mid, high, mid, run, budget - 1),
                     run, high - low, pdrError, Budget(budget));
        } else {
          BracketHalves(m, pdrError, a.history, low, mid, best, bestRun, budget - 1);
          HalvedOnce(SearchFrom(m, pdrError, a.history, low, mid, best, bestRun, budget - 1),
                     run, high - low, pdrError, Budget(budget));
        }
      }
    }
  }

  lemma HalvedOnce(rest: SearchEnd, run: RunResult, width: real, pdrError: real, cap: nat)
    requires cap > 0 && width > pdrError && Halved(rest, width / 2.0, pdrError, cap - 1)
    ensures Halved(rest.After(run), width, pdrError, cap)
  {
    assert |rest.After(run).trail| == |rest.trail| + 1;
    forall i | 0 <= i <= |rest.trail| ensures Halve(width, i) > pdrError {
      if i > 0 { assert Halve(width, i) == Halve(width / 2.0, i - 1); }
    }
  }

  /** A run is reported for the rate it was asked for. */
  ghost predicate AtRate(m: Measure) {
    forall h, pct :: m(h, pct).outcome.Some? ==> m(h, pct).outcome.value.percentage == pct
  }

  /** The last recorded run with the given verdict. */
  function LastWith(pass: bool, trail: seq<RunResult>): Option<RunResult> {
    if trail == [] then None else
      match LastWith(pass, trail[1..])
      case Some(run) => Some(run)
      case None => if trail[0].pass == pass then Some(trail[0]) else None
  }

  lemma {:induction false} LastWithIsRecorded(pass: bool, trail: seq<RunResult>)
    ensures match LastWith(pass, trail)
            case Some(run) => run in trail && run.pass == pass
            case None => forall run :: run in trail ==> run.pass != pass
  {
    if trail != [] {
      LastWithIsRecorded(pass, trail[1..]);
      assert trail == [trail[0]] + trail[1..];
    }
  }

  /** What justifies an end: the floor is the last recorded pass or the seed, the ceiling the last recorded fail or the
      initial one. */
  predicate Justified(end: SearchEnd, low: real, high: real, best: real, bestRun: RunResult) {
    && (match LastWith(true, end.trail)
        case Some(run) => end.bestRun == run && end.best == end.low == run.percentage
        case None => end.bestRun == bestRun && end.best == best && end.low == low)
    && end.high == (match LastWith(false, end.trail) case Some(run) => run.percentage case None => high)
  }

  lemma {:induction false} EndsAreMeasured(m: Measure, pdrError: real, h: History, low: real, high: real,
                                           best: real, bestRun: RunResult, budget: int)
    requires AtRate(m)
    ensures Justified(SearchFrom(m, pdrError, h, low, high, best, bestRun, budget), low, high, best, bestRun)
    decreases budget
  {
    if budget > 0 && high - low > pdrError {
      var mid := (low + high) / 2.0;
      var a := m(h, mid);
      if a.outcome.Some? {
        var run := a.outcome.value;
        if run.pass {
          EndsAreMeasured(m, pdrError, a.history, mid, high, mid, run, budget - 1);
        } else {
          EndsAreMeasured(m, pdrError, a.history, low, mid, best, bestRun, budget - 1);
        }
        var end := SearchFrom(m, pdrError, h, low, high, best, bestRun, budget);
        assert end.trail[1..] == (if run.pass then SearchFrom(m, pdrError, a.history, mid, high, mid, run, budget - 1)
                                  else SearchFrom(m, pdrError, a.history, low, mid, best, bestRun, budget - 1)).trail;
      }
    }
  }

  /** Every recorded pass lies at or below the final bracket and every recorded fail at or above it. */
  predicate Sided(end: SearchEnd, low: real, high: real) {
    && low <= end.low <= end.high <= high
    && (forall run :: run in end.trail ==> if run.pass then run.percentage <= end.low else end.high <= run.percentage)
  }

  lemma {:induction false} RunsTakeSides(m: Measure, pdrError: real, h: History, low: real, high: real,
                                         best: real, bestRun: RunResult, budget: int)
    requires AtRate(m) && low <= high
    ensures Sided(SearchFrom(m, pdrError, h, low, high, best, bestRun, budget), low, high)
    decreases budget
  {
    if budget > 0 && high - low > pdrError {
      var mid := (low + high) / 2.0;
      var a := m(h, mid);
      if a.outcome.Some? {
        var run := a.outcome.value;
        if run.pass {
          RunsTakeSides(m, pdrError, a.history, mid, high, mid, run, budget - 1);
        } else {
          RunsTakeSides(m, pdrError, a.history, low, mid, best, bestRun, budget - 1);
        }
      }
    }
  }

  // ----- Find, whatever is measured

  /** An answer with its evidence: within bounds, and if positive a recorded passing run at exactly that rate. */
  ghost predicate Evidenced(best: real, bestRun: RunResult, runs: seq<RunResult>) {
    && 0.0 <= best <= 100.0
    && (best > 0.0 ==> bestRun in runs && bestRun.pass && bestRun.percentage == best)
  }

  ghost predicate Highest(best: real, runs: seq<RunResult>) {
    forall run :: run in runs && run.pass ==> run.percentage <= best
  }

  /** A search seeded with a recorded pass, or with nothing at rate 0, ends with evidence. */
  lemma SeededSearch(m: Measure, pdrError: real, h: History, low: real, high: real, bestRun: RunResult, budget: int,
                     seeds: seq<RunResult>)
    requires AtRate(m) && 0.0 <= low <= high <= 100.0 && Evidenced(low, bestRun, seeds) && Highest(low, seeds)
    ensures var end := SearchFrom(m, pdrError, h, low, high, low, bestRun, budget);
            && Evidenced(end.best, end.bestRun, seeds + end.trail) && Highest(end.best, seeds + end.trail)
            && |end.trail| <= Budget(budget)
  {
    EndsAreMeasured(m, pdrError, h, low, high, low, bestRun, budget);
    RunsTakeSides(m, pdrError, h, low, high, low, bestRun, budget);
    BracketHalves(m, pdrError, h, low, high, low, bestRun, budget);
    var end := SearchFrom(m, pdrError, h, low, high, low, bestRun, budget);
    LastWithIsRecorded(true, end.trail);
    forall r ensures r in seeds + end.trail <==> r in seeds || r in end.trail { }
    assert end.low == end.best;
  }

  /** With the bracket the wrong way round (a negative window half-width) the answer is still a percentage. */
  lemma {:induction false} InvertedSearch(m: Measure, pdrError: real, h: History, low: real, high: real,
                                          best: real, bestRun: RunResult, budget: int)
    requires AtRate(m) && 0.0 <= high <= low <= 100.0 && 0.0 <= best <= 100.0
    ensures 0.0 <= SearchFrom(m, pdrError, h, low, high, best, bestRun, budget).best <= 100.0
    decreases budget
  {
    if budget > 0 && high - low > pdrError {
      var mid := (low + high) / 2.0;
      var a := m(h, mid);
      if a.outcome.Some? {
        InvertedSearch(m, pdrError, a.history, mid, high, mid, a.outcome.value, budget - 1);
        InvertedSearch(m, pdrError, a.history, low, mid, best, bestRun, budget - 1);
      }
    }
  }

  lemma OptSearchIsSound(m: Measure, cfg: Config, h: History, first: RunResult)
    requires AtRate(m)
    ensures var end := OptSearch(m, cfg, h, first);
            && |end.trail| <= Budget(cfg.maxIterations) + 2
            && (!end.failed ==> Evidenced(end.best, end.bestRun, end.trail))
            && (!end.failed && OptLow(cfg, first) <= OptHigh(cfg, first) ==> Highest(end.best, end.trail))
  {
    var lo, hi, e, n := OptLow(cfg, first), OptHigh(cfg, first), cfg.pdrError, cfg.maxIterations;
    var end := OptSearch(m, cfg, h, first);
    var a := m(h, lo);
    if a.outcome.Some? {
      var loRun := a.outcome.value;
      if !loRun.pass {
        SeededSearch(m, e, a.history, 0.0, lo, ZERO_RUN, n, [loRun]);
      } else {
        var b := m(a.history, hi);
        if b.outcome.Some? {
          var hiRun := b.outcome.value;
          var seeds := [loRun, hiRun];
          if hiRun.pass {
            var rest := SearchFrom(m, e, b.history, hi, 100.0, hi, hiRun, n);
            assert end.trail == [loRun] + ([hiRun] + rest.trail) == seeds + rest.trail;
            if lo <= hi {
              SeededSearch(m, e, b.history, hi, 100.0, hiRun, n, seeds);
            } else {
              SeededSearch(m, e, b.history, hi, 100.0, hiRun, n, [hiRun]);
              assert forall r :: r in [hiRun] + rest.trail ==> r in end.trail;
            }
          } else {
            var rest := SearchFrom(m, e, b.history, lo, hi, lo, loRun, n);
            assert end.trail == [loRun] + ([hiRun] + rest.trail) == seeds + rest.trail;
            if lo <= hi {
              SeededSearch(m, e, b.history, lo, hi, loRun, n, seeds);
            } else {
              InvertedSearch(m, e, b.history, lo, hi, lo, loRun, n);
              EndsAreMeasured(m, e, b.history, lo, hi, lo, loRun, n);
              BracketHalves(m, e, b.history, lo, hi, lo, loRun, n);
              LastWithIsRecorded(true, rest.trail);
              assert forall r :: r in [loRun] + rest.trail ==> r in end.trail;
            }
          }
        }
      }
    }
  }

  /** Passes the first two runs after h and no other. */
  function PassTwice(h: History): Measure {
    (h': History, pct: real) =>
      Attempt(h' + [ReadFinal], Some(ZERO_RUN.(percentage := pct, pass := |h'| < |h| + 2)))
  }

  /** That condition is exact: with the window the wrong way round there are measurements after which a recorded pass is
      higher than the answer. */
  lemma HighestIff(cfg: Config, h: History, first: RunResult)
    ensures (forall m: Measure :: AtRate(m) && !OptSearch(m, cfg, h, first).failed ==>
                                    Highest(OptSearch(m, cfg, h, first).best, OptSearch(m, cfg, h, first).trail))
            <==> OptLow(cfg, first) <= OptHigh(cfg, first)
  {
    var lo, hi, m := OptLow(cfg, first), OptHigh(cfg, first), PassTwice(h);
    if lo <= hi {
      forall m: Measure | AtRate(m) && !OptSearch(m, cfg, h, first).failed
        ensures Highest(OptSearch(m, cfg, h, first).best, OptSearch(m, cfg, h, first).trail)
      {
        OptSearchIsSound(m, cfg, h, first);
      }
    } else {
      var loRun, hiRun := m(h, lo).outcome.value, m(h + [ReadFinal], hi).outcome.value;
      var rest := SearchFrom(m, cfg.pdrError, h + [ReadFinal] + [ReadFinal], hi, 100.0, hi, hiRun, cfg.maxIterations);
      NeverPasses(m, h, cfg.pdrError, h + [ReadFinal] + [ReadFinal], hi, 100.0, hi, hiRun, cfg.maxIterations);
      var end := OptSearch(m, cfg, h, first);
      assert end == rest.After(hiRun).After(loRun);
      assert end.trail[0] == loRun && loRun in end.trail && loRun.percentage == lo;
      assert AtRate(m) && !end.failed && !Highest(end.best, end.trail);
    }
  }

  lemma {:induction false} NeverPasses(m: Measure, start: History, pdrError: real, h: History, low: real, high: real,
                                       best: real, bestRun: RunResult, budget: int)
    requires m == PassTwice(start) && |h| >= |start| + 2
    ensures var end := SearchFrom(m, pdrError, h, low, high, best, bestRun, budget); !end.failed && end.best == best
    decreases budget
  {
    if budget > 0 && high - low > pdrError {
      NeverPasses(m, start, pdrError, h + [ReadFinal], low, (low + high) / 2.0, best, bestRun, budget - 1);
    }
  }

  /** Whatever is measured: a first run that passes is the answer, with no iteration; a positive NDR comes with a
      recorded passing run at exactly that rate, no recorded pass is higher as long as the optimized window is the
      right way round, and the number of recorded runs is bounded. */
  lemma FindIsSound(probing: Measure, m: Measure, cfg: Config, h: History, active: Option<(seq<int>, seq<int>)>)
    requires AtRate(probing) && AtRate(m) && Find(probing, m, cfg, h, active).outcome.Ok?
    ensures var r := Find(probing, m, cfg, h, active).outcome.value;
            && probing(h, 100.0).outcome == Some(r.firstRun)
            && (r.firstRun.pass ==> r.iterations == [] && r.ndrPercent == 100.0 && r.ndrRun == r.firstRun)
            && |r.iterations| <= Budget(cfg.maxIterations) + 2
            && Evidenced(r.ndrPercent, r.ndrRun, [r.firstRun] + r.iterations)
            && (!cfg.optBinSearch || OptLow(cfg, r.firstRun) <= OptHigh(cfg, r.firstRun) ==>
                Highest(r.ndrPercent, [r.firstRun] + r.iterations))
  {
    var probe := probing(h, 100.0);
    var first := probe.outcome.value;
    if !first.pass {
      if cfg.optBinSearch {
        OptSearchIsSound(m, cfg, probe.history, first);
      } else {
        SeededSearch(m, cfg.pdrError, probe.history, 0.0, 100.0, ZERO_RUN, cfg.maxIterations, []);
        var end := Refine(m, cfg, probe.history, first);
        assert [] + end.trail == end.trail;
      }
      var r := Find(probing, m, cfg, h, active).outcome.value;
      forall run ensures run in [r.firstRun] + r.iterations <==> run == first || run in r.iterations { }
    }
  }

  /** The window is the right way round for every non-negative half-width. */
  lemma WindowIsOrdered(cfg: Config, first: RunResult)
    requires cfg.optBinSearchPercent >= 0.0
    ensures OptLow(cfg, first) <= OptHigh(cfg, first)
  {
  }

  /** So with a half-width that is not negative Find always answers the highest passing rate it recorded. */
  lemma FindIsHighest(probing: Measure, m: Measure, cfg: Config, h: History, active: Option<(seq<int>, seq<int>)>)
    requires AtRate(probing) && AtRate(m) && Find(probing, m, cfg, h, active).outcome.Ok?
    requires cfg.optBinSearch ==> cfg.optBinSearchPercent >= 0.0
    ensures var r := Find(probing, m, cfg, h, active).outcome.value;
            Highest(r.ndrPercent, [r.firstRun] + r.iterations)
  {
    if cfg.optBinSearch {
      WindowIsOrdered(cfg, Find(probing, m, cfg, h, active).outcome.value.firstRun);
    }
    FindIsSound(probing, m, cfg, h, active);
  }

  // ----- traffic safety of the whole search

  /** A measurement that starts from a quiet history ends with one. */
  ghost predicate KeepsQuiet(m: Measure, ports: seq<int>) {
    forall h, pct :: Quiet(h, ports) ==> Quiet(m(h, pct).history, ports)
  }

  lemma {:induction false} SearchIsSafe(m: Measure, ports: seq<int>, pdrError: real, h: History, low: real, high: real,
                                        best: real, bestRun: RunResult, budget: int)
    requires KeepsQuiet(m, ports) && Quiet(h, ports)
    ensures Quiet(SearchFrom(m, pdrError, h, low, high, best, bestRun, budget).history, ports)
    decreases budget
  {
    if budget > 0 && high - low > pdrError {
      var mid := (low + high) / 2.0;
      var a := m(h, mid);
      if a.outcome.Some? && a.outcome.value.pass {
        SearchIsSafe(m, ports, pdrError, a.history, mid, high, mid, a.outcome.value, budget - 1);
      } else if a.outcome.Some? {
        SearchIsSafe(m, ports, pdrError, a.history, low, mid, best, bestRun, budget - 1);
      }
    }
  }

  lemma OptSearchIsSafe(m: Measure, ports: seq<int>, cfg: Config, h: History, first: RunResult)
    requires KeepsQuiet(m, ports) && Quiet(h, ports)
    ensures Quiet(OptSearch(m, cfg, h, first).history, ports)
  {
    var lo, hi, e, n := OptLow(cfg, first), OptHigh(cfg, first), cfg.pdrError, cfg.maxIterations;
    var a := m(h, lo);
    if a.outcome.Some? {
      SearchIsSafe(m, ports, e, a.history, 0.0, lo, 0.0, ZERO_RUN, n);
      var b := m(a.history, hi);
      if b.outcome.Some? {
        SearchIsSafe(m, ports, e, b.history, hi, 100.0, hi, b.outcome.value, n);
        SearchIsSafe(m, ports, e, b.history, lo, hi, lo, a.outcome.value, n);
      }
    }
  }

  /** However the search ends, and whatever fails or is cancelled on the way, no port is left driven. */
  lemma FindIsSafe(probing: Measure, m: Measure, ports: seq<int>, cfg: Config, h: History,
                   active: Option<(seq<int>, seq<int>)>)
    requires KeepsQuiet(probing, ports) && KeepsQuiet(m, ports) && Quiet(h, ports)
    ensures Quiet(Find(probing, m, cfg, h, active).history, ports)
  {
    var probe := probing(h, 100.0);
    if probe.outcome.Some? {
      SearchIsSafe(m, ports, cfg.pdrError, probe.history, 0.0, 100.0, 0.0, ZERO_RUN, cfg.maxIterations);
      OptSearchIsSafe(m, ports, cfg, probe.history, probe.outcome.value);
    }
  }

  // ----- accuracy for a device with a fixed behaviour

  /** The device drops nothing below its no-drop rate: whatever passes, everything slower passes too. */
  ghost predicate Monotone(ok: real -> bool) {
    forall a, b :: a <= b && ok(b) ==> ok(a)
  }

  /** A device that passes with no traffic and fails at 100%. */
  ghost predicate Device(ok: real -> bool) {
    Monotone(ok) && ok(0.0) && !ok(100.0)
  }

  predicate IsPercentage(pct: real) {
    0.0 <= pct <= 100.0
  }

  /** Every measurement succeeds and reports what the device does. */
  ghost predicate Faithful(m: Measure, ok: real -> bool) {
    forall h, pct :: IsPercentage(pct) ==>
      m(h, pct).outcome.Some? && (m(h, pct).outcome.value.pass <==> ok(pct))
  }

  /** Every measurement succeeds, and passes at least what the device forwards. */
  ghost predicate Generous(m: Measure, ok: real -> bool) {
    forall h, pct :: IsPercentage(pct) ==>
      m(h, pct).outcome.Some? && (ok(pct) ==> m(h, pct).outcome.value.pass)
  }

  lemma {:induction false} SearchStraddles(m: Measure, ok: real -> bool, pdrError: real, h: History,
                                           low: real, high: real, bestRun: RunResult, budget: int)
    requires Faithful(m, ok) && ok(low) && !ok(high) && IsPercentage(low) && IsPercentage(high)
    ensures var end := SearchFrom(m, pdrError, h, low, high, low, bestRun, budget);
            !end.failed && end.best == end.low && ok(end.low) && !ok(end.high)
    decreases budget
  {
    if budget > 0 && high - low > pdrError {
      var mid := (low + high) / 2.0;
      assert IsPercentage(mid);
      var a := m(h, mid);
      if a.outcome.value.pass {
        SearchStraddles(m, ok, pdrError, a.history, mid, high, a.outcome.value, budget - 1);
      } else {
        SearchStraddles(m, ok, pdrError, a.history, low, mid, bestRun, budget - 1);
      }
    }
  }

  /** The rate passes, and adding the slack fails. */
  predicate Close(ok: real -> bool, rate: real, slack: real) {
    ok(rate) && !ok(rate + slack)
  }

  /** In terms of the device's own no-drop rate, the lowest rate nothing above which passes: a close rate is below it by
      at most the slack, and by less when the device passes at its own rate. */
  lemma CloseToThreshold(ok: real -> bool, rate: real, slack: real, ndr: real)
    requires Close(ok, rate, slack)
    requires forall pct :: (pct < ndr ==> ok(pct)) && (pct > ndr ==> !ok(pct))
    ensures rate <= ndr <= rate + slack
    ensures ok(ndr) ==> ndr < rate + slack
  {
    assert !(rate > ndr) && !(rate + slack < ndr);
  }

  /** Within the convergence window, or within what the iteration cap makes of a bracket of the given width. */
  predicate Accurate(ok: real -> bool, rate: real, cfg: Config, width: real) {
    Close(ok, rate, cfg.pdrError) || Close(ok, rate, Halve(width, Budget(cfg.maxIterations)))
  }

  lemma SearchIsAccurate(m: Measure, ok: real -> bool, cfg: Config, h: History, low: real, high: real,
                         bestRun: RunResult)
    requires Faithful(m, ok) && Monotone(ok) && ok(low) && !ok(high) && IsPercentage(low) && IsPercentage(high)
    ensures var end := SearchFrom(m, cfg.pdrError, h, low, high, low, bestRun, cfg.maxIterations);
            !end.failed && Accurate(ok, end.best, cfg, high - low)
  {
    SearchStraddles(m, ok, cfg.pdrError, h, low, high, bestRun, cfg.maxIterations);
    BracketHalves(m, cfg.pdrError, h, low, high, low, bestRun, cfg.maxIterations);
    var end := SearchFrom(m, cfg.pdrError, h, low, high, low, bestRun, cfg.maxIterations);
    var slack := if end.high - end.low <= cfg.pdrError then cfg.pdrError
                 else Halve(high - low, Budget(cfg.maxIterations));
    assert end.high <= end.low + slack;
  }

  /** The bracket the optimized search is left with: below the window, above it, or the window itself. */
  function OptWidth(cfg: Config, first: RunResult, ok: real -> bool): real {
    var lo, hi := OptLow(cfg, first), OptHigh(cfg, first);
    if !ok(lo) then lo else if ok(hi) then 100.0 - hi else hi - lo
  }

  lemma OptSearchIsAccurate(m: Measure, ok: real -> bool, cfg: Config, h: History, first: RunResult)
    requires Faithful(m, ok) && Device(ok)
    ensures var end := OptSearch(m, cfg, h, first);
            !end.failed && Accurate(ok, end.best, cfg, OptWidth(cfg, first, ok))
  {
    var lo, hi := OptLow(cfg, first), OptHigh(cfg, first);
    assert IsPercentage(lo) && IsPercentage(hi);
    var a := m(h, lo);
    if !a.outcome.value.pass {
      SearchIsAccurate(m, ok, cfg, a.history, 0.0, lo, ZERO_RUN);
    } else {
      var b := m(a.history, hi);
      if b.outcome.value.pass {
        SearchIsAccurate(m, ok, cfg, b.history, hi, 100.0, b.outcome.value);
      } else {
        SearchIsAccurate(m, ok, cfg, b.history, lo, hi, a.outcome.value);
      }
    }
  }

  /** The optimized search never starts from more than the plain one, and from at most twice the half-width when the
      rate lies in the window. */
  lemma OptWidthBounded(cfg: Config, first: RunResult, ok: real -> bool)
    ensures OptWidth(cfg, first, ok) <= 100.0
    ensures ok(OptLow(cfg, first)) && !ok(OptHigh(cfg, first)) && cfg.optBinSearchPercent >= 0.0 ==>
              OptWidth(cfg, first, ok) <= 2.0 * cfg.optBinSearchPercent
  {
  }

  /** The bracket Find starts from. */
  function FindWidth(cfg: Config, first: RunResult, ok: real -> bool): real {
    if cfg.optBinSearch then OptWidth(cfg, first, ok) else 100.0
  }

  /** Either strategy returns a passing rate within the accuracy of the device's own rate. */
  lemma FindIsAccurate(probing: Measure, m: Measure, ok: real -> bool, cfg: Config, h: History,
                       flow: seq<int>, latency: seq<int>)
    requires Faithful(probing, ok) && Faithful(m, ok) && Device(ok) && flow + latency != []
    ensures var f := Find(probing, m, cfg, h, Some((flow, latency))).outcome;
            f.Ok? && Accurate(ok, f.value.ndrPercent, cfg, FindWidth(cfg, f.value.firstRun, ok))
  {
    assert IsPercentage(100.0);
    var probe := probing(h, 100.0);
    if cfg.optBinSearch {
      OptSearchIsAccurate(m, ok, cfg, probe.history, probe.outcome.value);
    } else {
      SearchIsAccurate(m, ok, cfg, probe.history, 0.0, 100.0, ZERO_RUN);
    }
  }

  /** Close rates of one device differ by less than the slack. */
  lemma CloseAgree(ok: real -> bool, a: real, b: real, slack: real)
    requires Monotone(ok) && Close(ok, a, slack) && Close(ok, b, slack)
    ensures -slack < a - b < slack
  {
    assert !(a + slack <= b) && !(b + slack <= a);
  }

  lemma AccurateIsClose(ok: real -> bool, rate: real, cfg: Config, width: real)
    requires Monotone(ok) && Accurate(ok, rate, cfg, width) && width <= 100.0
    requires Halve(100.0, Budget(cfg.maxIterations)) <= cfg.pdrError
    ensures Close(ok, rate, cfg.pdrError)
  {
    HalveMonotone(width, 100.0, Budget(cfg.maxIterations));
    assert rate + Halve(width, Budget(cfg.maxIterations)) <= rate + cfg.pdrError;
  }

  /** With enough iterations Find's answer passes and is less than the window from failing. */
  lemma FindIsClose(probing: Measure, m: Measure, ok: real -> bool, cfg: Config, h: History,
                    flow: seq<int>, latency: seq<int>)
    requires Faithful(probing, ok) && Faithful(m, ok) && Device(ok) && flow + latency != []
    requires Halve(100.0, Budget(cfg.maxIterations)) <= cfg.pdrError
    ensures var f := Find(probing, m, cfg, h, Some((flow, latency))).outcome;
            f.Ok? && Close(ok, f.value.ndrPercent, cfg.pdrError)
  {
    var f := Find(probing, m, cfg, h, Some((flow, latency))).outcome;
    FindIsAccurate(probing, m, ok, cfg, h, flow, latency);
    OptWidthBounded(cfg, f.value.firstRun, ok);
    AccurateIsClose(ok, f.value.ndrPercent, cfg, FindWidth(cfg, f.value.firstRun, ok));
  }

  /** With enough iterations the plain and the optimized search agree to less than the window, for every window
      half-width and through every branch of the optimized one. The two may measure through different functions and from
      different histories, as long as all are faithful to the same device. */
  lemma StrategiesAgree(probePlain: Measure, mPlain: Measure, hPlain: History, probeOpt: Measure, mOpt: Measure,
                        hOpt: History, ok: real -> bool, cfg: Config, flow: seq<int>, latency: seq<int>)
    requires Faithful(probePlain, ok) && Faithful(mPlain, ok) && Faithful(probeOpt, ok) && Faithful(mOpt, ok)
    requires Device(ok) && flow + latency != [] && Halve(100.0, Budget(cfg.maxIterations)) <= cfg.pdrError
    ensures var plain := Find(probePlain, mPlain, cfg.(optBinSearch := false), hPlain, Some((flow, latency))).outcome;
            var opt := Find(probeOpt, mOpt, cfg.(optBinSearch := true), hOpt, Some((flow, latency))).outcome;
            && plain.Ok? && Close(ok, plain.value.ndrPercent, cfg.pdrError)
            && opt.Ok? && Close(ok, opt.value.ndrPercent, cfg.pdrError)
            && -cfg.pdrError < plain.value.ndrPercent - opt.value.ndrPercent < cfg.pdrError
  {
    var plain := Find(probePlain, mPlain, cfg.(optBinSearch := false), hPlain, Some((flow, latency))).outcome;
    var opt := Find(probeOpt, mOpt, cfg.(optBinSearch := true), hOpt, Some((flow, latency))).outcome;
    FindIsClose(probePlain, mPlain, ok, cfg.(optBinSearch := false), hPlain, flow, latency);
    FindIsClose(probeOpt, mOpt, ok, cfg.(optBinSearch := true), hOpt, flow, latency);
    CloseAgree(ok, plain.value.ndrPercent, opt.value.ndrPercent, cfg.pdrError);
  }

  // ----- where the optimized search looks

  /** `edge` is x, or the end of the percentages that x lies beyond. */
  predicate IsEdge(edge: real, x: real) {
    && (0.0 <= x <= 100.0 ==> edge == x)
    && (x < 0.0 ==> edge == 0.0)
    && (x > 100.0 ==> edge == 100.0)
  }

  /** Whatever is measured, the optimized search first measures the rate the first run forwarded less the half-width,
      then, if that passes, the same rate plus the half-width; it has failed unless it recorded what it measured. */
  lemma OptSearchMeasuresEdges(m: Measure, cfg: Config, h: History, first: RunResult)
    requires AtRate(m)
    ensures var trail, failed := OptSearch(m, cfg, h, first).trail, OptSearch(m, cfg, h, first).failed;
            && (trail != [] ==> IsEdge(trail[0].percentage, 100.0 - first.dropPct - cfg.optBinSearchPercent))
            && (|trail| > 1 && trail[0].pass ==>
                IsEdge(trail[1].percentage, 100.0 - first.dropPct + cfg.optBinSearchPercent))
            && (!failed ==> trail != [] && (trail[0].pass ==> |trail| > 1))
  {
  }

  /** A search measures nothing outside its bracket. */
  lemma {:induction false} RunsStayBetween(m: Measure, pdrError: real, h: History, low: real, high: real,
                                           best: real, bestRun: RunResult, budget: int)
    requires AtRate(m) && low <= high
    ensures forall r :: r in SearchFrom(m, pdrError, h, low, high, best, bestRun, budget).trail ==>
                          low <= r.percentage <= high
    decreases budget
  {
    if budget > 0 && high - low > pdrError {
      var mid := (low + high) / 2.0;
      var a := m(h, mid);
      if a.outcome.Some? {
        RunsStayBetween(m, pdrError, a.history, mid, high, mid, a.outcome.value, budget - 1);
        RunsStayBetween(m, pdrError, a.history, low, mid, best, bestRun, budget - 1);
      }
    }
  }

  /** Every recorded run lies between two rates, and the answer is as accurate as a search between them. */
  ghost predicate LooksBetween(end: SearchEnd, ok: real -> bool, cfg: Config, lo: real, hi: real) {
    && !end.failed && Accurate(ok, end.best, cfg, hi - lo)
    && (forall r :: r in end.trail ==> lo <= r.percentage <= hi)
    && |end.trail| <= Budget(cfg.maxIterations) + 2
  }

  lemma SearchLooksBetween(m: Measure, ok: real -> bool, cfg: Config, h: History, low: real, high: real,
                           bestRun: RunResult, loRun: RunResult, hiRun: RunResult)
    requires AtRate(m) && Faithful(m, ok) && Monotone(ok) && ok(low) && !ok(high)
    requires 0.0 <= low <= high <= 100.0 && loRun.percentage == low && hiRun.percentage == high
    ensures var end := SearchFrom(m, cfg.pdrError, h, low, high, low, bestRun, cfg.maxIterations);
            LooksBetween(end.After(hiRun).After(loRun), ok, cfg, low, high)
  {
    SearchIsAccurate(m, ok, cfg, h, low, high, bestRun);
    RunsStayBetween(m, cfg.pdrError, h, low, high, low, bestRun, cfg.maxIterations);
    BracketHalves(m, cfg.pdrError, h, low, high, low, bestRun, cfg.maxIterations);
  }

  /** If the device passes at the low edge of the window and fails at the high one, the optimized search stays in the
      window: it starts from twice the half-width around the rate that the first run forwarded. */
  lemma OptSearchStaysInWindow(m: Measure, ok: real -> bool, cfg: Config, h: History, first: RunResult)
    requires AtRate(m) && Faithful(m, ok) && Device(ok)
    requires var lo, hi := 100.0 - first.dropPct - cfg.optBinSearchPercent,
                           100.0 - first.dropPct + cfg.optBinSearchPercent;
             0.0 <= lo <= 100.0 && 0.0 <= hi <= 100.0 && ok(lo) && !ok(hi)
    ensures var lo, hi := 100.0 - first.dropPct - cfg.optBinSearchPercent,
                          100.0 - first.dropPct + cfg.optBinSearchPercent;
            LooksBetween(OptSearch(m, cfg, h, first), ok, cfg, lo, hi) && hi - lo == 2.0 * cfg.optBinSearchPercent
  {
    var lo, hi := 100.0 - first.dropPct - cfg.optBinSearchPercent, 100.0 - first.dropPct + cfg.optBinSearchPercent;
    assert lo <= hi && IsPercentage(lo) && IsPercentage(hi);
    assert OptLow(cfg, first) == lo && OptHigh(cfg, first) == hi;
    var a := m(h, lo);
    var b := m(a.history, hi);
    SearchLooksBetween(m, ok, cfg, b.history, lo, hi, a.outcome.value, a.outcome.value, b.outcome.value);
  }

  /** In particular, of a device that passes exactly up to some rate and drops just the rest of a first run at 100%,
      the optimized search of Find measures nothing further from that rate than the half-width. */
  lemma FindLooksAroundRate(probing: Measure, m: Measure, ok: real -> bool, cfg: Config, h: History,
                            flow: seq<int>, latency: seq<int>, ndr: real)
    requires AtRate(m) && Faithful(probing, ok) && Faithful(m, ok) && Device(ok) && flow + latency != []
    requires cfg.optBinSearch && cfg.optBinSearchPercent > 0.0
    requires forall pct :: (pct < ndr ==> ok(pct)) && (pct > ndr ==> !ok(pct))
    requires cfg.optBinSearchPercent <= ndr <= 100.0 - cfg.optBinSearchPercent
    requires probing(h, 100.0).outcome.Some? ==> probing(h, 100.0).outcome.value.dropPct == 100.0 - ndr
    ensures var f := Find(probing, m, cfg, h, Some((flow, latency))).outcome;
            && f.Ok? && Accurate(ok, f.value.ndrPercent, cfg, 2.0 * cfg.optBinSearchPercent)
            && |f.value.iterations| <= Budget(cfg.maxIterations) + 2
            && forall r :: r in f.value.iterations ==>
                 ndr - cfg.optBinSearchPercent <= r.percentage <= ndr + cfg.optBinSearchPercent
  {
    assert IsPercentage(100.0);
    var probe := probing(h, 100.0);
    OptSearchStaysInWindow(m, ok, cfg, probe.history, probe.outcome.value);
  }

  // ----- how Find fails

  /** Without an answer to get_active_pgids, or with none active, Find fails and attempts nothing; otherwise it fails
      only if a run fails, and at once if that is the first. */
  lemma FindFailures(probing: Measure, m: Measure, cfg: Config, h: History, active: Option<(seq<int>, seq<int>)>)
    ensures var f := Find(probing, m, cfg, h, active);
            && (f.outcome == Err(ActivePgidsFailed) <==> active.None?)
            && (f.outcome == Err(NoActivePgids) <==> active.Some? && active.value.0 == [] && active.value.1 == [])
            && (f.outcome.Err? && !f.outcome.error.RunFailed? ==> f.history == h)
            && (f.outcome == Err(RunFailed) ==>
                exists h', pct :: probing(h', pct).outcome.None? || m(h', pct).outcome.None?)
            && (active.Some? && active.value.0 + active.value.1 != [] && probing(h, 100.0).outcome.None? ==>
                f == FindEnd(probing(h, 100.0).history, Err(RunFailed)))
  {
    if active.Some? {
      assert active.value.0 + active.value.1 == [] <==> active.value.0 == [] && active.value.1 == [];
      if forall h', pct :: probing(h', pct).outcome.Some? && m(h', pct).outcome.Some? {
        var probe := probing(h, 100.0);
        SearchNeverFails(m, cfg.pdrError, probe.history, 0.0, 100.0, 0.0, ZERO_RUN, cfg.maxIterations);
        OptSearchNeverFails(m, cfg, probe.history, probe.outcome.value);
      }
    }
  }

  ghost predicate NeverFails(m: Measure) {
    forall h, pct :: m(h, pct).outcome.Some?
  }

  lemma {:induction false} SearchNeverFails(m: Measure, pdrError: real, h: History, low: real, high: real,
                                            best: real, bestRun: RunResult, budget: int)
    requires NeverFails(m)
    ensures !SearchFrom(m, pdrError, h, low, high, best, bestRun, budget).failed
    decreases budget
  {
    if budget > 0 && high - low > pdrError {
      var mid := (low + high) / 2.0;
      var a := m(h, mid);
      SearchNeverFails(m, pdrError, a.history, mid, high, mid, a.outcome.value, budget - 1);
      SearchNeverFails(m, pdrError, a.history, low, mid, best, bestRun, budget - 1);
    }
  }

  lemma OptSearchNeverFails(m: Measure, cfg: Config, h: History, first: RunResult)
    requires NeverFails(m)
    ensures !OptSearch(m, cfg, h, first).failed
  {
    var lo, hi, e, n := OptLow(cfg, first), OptHigh(cfg, first), cfg.pdrError, cfg.maxIterations;
    var a := m(h, lo);
    var b := m(a.history, hi);
    SearchNeverFails(m, e, a.history, 0.0, lo, 0.0, ZERO_RUN, n);
    SearchNeverFails(m, e, b.history, hi, 100.0, hi, b.outcome.value, n);
    SearchNeverFails(m, e, b.history, lo, hi, lo, a.outcome.value, n);
  }

  // ----- measurements that may pass too much

  /** Adding the window fails, or adding what the cap makes of a full bracket does. */
  predicate NearTop(ok: real -> bool, rate: real, cfg: Config) {
    !ok(rate + cfg.pdrError) || !ok(rate + Halve(100.0, Budget(cfg.maxIterations)))
  }

  lemma {:induction false} CeilingFails(m: Measure, ok: real -> bool, pdrError: real, h: History,
                                        low: real, high: real, bestRun: RunResult, budget: int)
    requires Generous(m, ok) && !ok(high) && IsPercentage(low) && IsPercentage(high)
    ensures var end := SearchFrom(m, pdrError, h, low, high, low, bestRun, budget);
            !end.failed && end.best == end.low && !ok(end.high)
    decreases budget
  {
    if budget > 0 && high - low > pdrError {
      var mid := (low + high) / 2.0;
      assert IsPercentage(mid);
      var a := m(h, mid);
      if a.outcome.value.pass {
        CeilingFails(m, ok, pdrError, a.history, mid, high, a.outcome.value, budget - 1);
      } else {
        CeilingFails(m, ok, pdrError, a.history, low, mid, bestRun, budget - 1);
      }
    }
  }

  lemma SearchReachesTop(m: Measure, ok: real -> bool, cfg: Config, h: History, low: real, high: real,
                         bestRun: RunResult)
    requires Generous(m, ok) && Monotone(ok) && !ok(high) && IsPercentage(low) && IsPercentage(high)
    ensures var end := SearchFrom(m, cfg.pdrError, h, low, high, low, bestRun, cfg.maxIterations);
            !end.failed && NearTop(ok, end.best, cfg)
  {
    CeilingFails(m, ok, cfg.pdrError, h, low, high, bestRun, cfg.maxIterations);
    BracketHalves(m, cfg.pdrError, h, low, high, low, bestRun, cfg.maxIterations);
    HalveMonotone(high - low, 100.0, Budget(cfg.maxIterations));
    var end := SearchFrom(m, cfg.pdrError, h, low, high, low, bestRun, cfg.maxIterations);
    var slack := if end.high - end.low <= cfg.pdrError then cfg.pdrError
                 else Halve(100.0, Budget(cfg.maxIterations));
    assert end.high <= end.low + slack;
  }

  lemma OptSearchReachesTop(m: Measure, ok: real -> bool, cfg: Config, h: History, first: RunResult)
    requires Generous(m, ok) && Device(ok)
    ensures var end := OptSearch(m, cfg, h, first); !end.failed && NearTop(ok, end.best, cfg)
  {
    var lo, hi := OptLow(cfg, first), OptHigh(cfg, first);
    assert IsPercentage(lo) && IsPercentage(hi);
    var a := m(h, lo);
    if !a.outcome.value.pass {
      SearchReachesTop(m, ok, cfg, a.history, 0.0, lo, ZERO_RUN);
    } else {
      var b := m(a.history, hi);
      if b.outcome.value.pass {
        SearchReachesTop(m, ok, cfg, b.history, hi, 100.0, b.outcome.value);
      } else {
        SearchReachesTop(m, ok, cfg, b.history, lo, hi, a.outcome.value);
      }
    }
  }

  /** Measurements pass only rates that are fit. */
  ghost predicate Sharp(m: Measure, fit: real -> bool) {
    forall h, pct :: IsPercentage(pct) && m(h, pct).outcome.Some? && m(h, pct).outcome.value.pass ==> fit(pct)
  }

  lemma {:induction false} BestIsFit(m: Measure, fit: real -> bool, pdrError: real, h: History, low: real, high: real,
                                     best: real, bestRun: RunResult, budget: int)
    requires Sharp(m, fit) && fit(best) && IsPercentage(low) && IsPercentage(high)
    ensures fit(SearchFrom(m, pdrError, h, low, high, best, bestRun, budget).best)
    decreases budget
  {
    if budget > 0 && high - low > pdrError {
      var mid := (low + high) / 2.0;
      assert IsPercentage(mid);
      var a := m(h, mid);
      if a.outcome.Some? && a.outcome.value.pass {
        BestIsFit(m, fit, pdrError, a.history, mid, high, mid, a.outcome.value, budget - 1);
      } else if a.outcome.Some? {
        BestIsFit(m, fit, pdrError, a.history, low, mid, best, bestRun, budget - 1);
      }
    }
  }

  lemma OptBestIsFit(m: Measure, fit: real -> bool, cfg: Config, h: History, first: RunResult)
    requires Sharp(m, fit) && fit(0.0)
    ensures fit(OptSearch(m, cfg, h, first).best)
  {
    var lo, hi := OptLow(cfg, first), OptHigh(cfg, first);
    assert IsPercentage(lo) && IsPercentage(hi);
    var a := m(h, lo);
    if a.outcome.Some? {
      BestIsFit(m, fit, cfg.pdrError, a.history, 0.0, lo, 0.0, ZERO_RUN, cfg.maxIterations);
      var b := m(a.history, hi);
      if b.outcome.Some? && b.outcome.value.pass {
        BestIsFit(m, fit, cfg.pdrError, b.history, hi, 100.0, hi, b.outcome.value, cfg.maxIterations);
      } else if b.outcome.Some? && a.outcome.value.pass {
        BestIsFit(m, fit, cfg.pdrError, b.history, lo, hi, lo, a.outcome.value, cfg.maxIterations);
      }
    }
  }

  /** Measurements that pass only what is fit lead Find to nothing else, whatever the window and the strategy. */
  lemma AnswerIsFit(probing: Measure, m: Measure, fit: real -> bool, cfg: Config, h: History,
                    active: Option<(seq<int>, seq<int>)>)
    requires Sharp(probing, fit) && Sharp(m, fit) && fit(0.0)
    ensures var f := Find(probing, m, cfg, h, active).outcome; f.Ok? ==> fit(f.value.ndrPercent)
  {
    assert IsPercentage(100.0);
    var probe := probing(h, 100.0);
    if probe.outcome.Some? {
      OptBestIsFit(m, fit, cfg, probe.history, probe.outcome.value);
      BestIsFit(m, fit, cfg.pdrError, probe.history, 0.0, 100.0, 0.0, ZERO_RUN, cfg.maxIterations);
    }
  }

  /** Measurements that never fail what the device forwards never lead Find to an answer that is short of it by more
      than the accuracy, whatever else they let pass. */
  lemma FindReachesTop(probing: Measure, m: Measure, ok: real -> bool, cfg: Config, h: History,
                       flow: seq<int>, latency: seq<int>)
    requires Generous(probing, ok) && Generous(m, ok) && Device(ok) && flow + latency != []
    ensures var f := Find(probing, m, cfg, h, Some((flow, latency))).outcome;
            f.Ok? && (f.value.ndrPercent == 100.0 || NearTop(ok, f.value.ndrPercent, cfg))
  {
    assert IsPercentage(100.0);
    var probe := probing(h, 100.0);
    if cfg.optBinSearch {
      OptSearchReachesTop(m, ok, cfg, probe.history, probe.outcome.value);
    } else {
      SearchReachesTop(m, ok, cfg, probe.history, 0.0, 100.0, ZERO_RUN);
    }
  }
}
