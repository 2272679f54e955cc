/** The engine on the bench: what Find answers about a device whose counters run while traffic flows. */
module Bench {
  import opened Prelude
  import opened Counters
  import opened Traffic
  import opened Search
  import opened NdrEngine
  import opened Sessions
  import opened Dilution

  /** Every session of this hold can be counted, and `ok` is what the device forwards. */
  ghost predicate Testable(d: Dut, cfg: Config, ok: real -> bool, hold: int) {
    && Steady(d, cfg.limits, ok, hold)
    && forall pct :: 0.0 < pct <= 100.0 ==> Countable(d, cfg, pct, hold)
  }

  /** A rig with this device: for the probe, for the iterations, and with at least one port. */
  ghost predicate Benched(d: Dut, rig: Rig, ok: real -> bool) {
    && rig.server == ServerOf(d) && rig.ports != [] && Device(ok)
    && Testable(d, rig.cfg, ok, rig.cfg.firstNanos) && Testable(d, rig.cfg, ok, rig.cfg.iterationNanos)
  }

  /** The engine's measurements on that rig. */
  ghost predicate OnBench(d: Dut, rig: Rig, ok: real -> bool, probing: Measure, lab: Measure) {
    Benched(d, rig, ok) && Meters(probing, rig, rig.cfg.firstNanos) && Meters(lab, rig, rig.cfg.iterationNanos)
  }

  lemma RunOnBench(d: Dut, lab: Measure, rig: Rig, ok: real -> bool, hold: int, h: History, pct: real)
    requires Meters(lab, rig, hold) && rig.server == ServerOf(d) && rig.ports != [] && IsPercentage(pct)
    requires Testable(d, rig.cfg, ok, hold)
    ensures lab(h, pct).outcome.Some?
    ensures lab(h, pct).outcome.value.pass <==> pct == 0.0 || SessionPass(d, rig.cfg, pct, hold)
  {
    assert lab(h, pct) == PerfRun(rig, h, pct, hold);
    if pct > 0.0 {
      PerfRunMeasures(d, rig, h, pct, hold);
    }
  }

  /** The engine's own measurements pass whatever the device forwards. */
  lemma EngineIsGenerous(d: Dut, lab: Measure, rig: Rig, ok: real -> bool, hold: int)
    requires Meters(lab, rig, hold) && rig.server == ServerOf(d) && rig.ports != []
    requires Testable(d, rig.cfg, ok, hold) && Device(ok)
    ensures Generous(lab, ok)
  {
    forall h, pct | IsPercentage(pct)
      ensures lab(h, pct).outcome.Some? && (ok(pct) ==> lab(h, pct).outcome.value.pass)
    {
      RunOnBench(d, lab, rig, ok, hold, h, pct);
      if pct > 0.0 && ok(pct) {
        ForwardedPasses(d, rig.cfg, ok, pct, hold);
      }
    }
  }

  /** Where the ramp is harmless they pass nothing else. */
  lemma EngineIsFaithful(d: Dut, lab: Measure, rig: Rig, ok: real -> bool, hold: int)
    requires Meters(lab, rig, hold) && rig.server == ServerOf(d) && rig.ports != []
    requires Testable(d, rig.cfg, ok, hold) && Device(ok) && Exact(rig.cfg)
    ensures Faithful(lab, ok)
  {
    EngineIsGenerous(d, lab, rig, ok, hold);
    forall h, pct | IsPercentage(pct)
      ensures lab(h, pct).outcome.Some? && (lab(h, pct).outcome.value.pass <==> ok(pct))
    {
      RunOnBench(d, lab, rig, ok, hold, h, pct);
      if pct > 0.0 && SessionPass(d, rig.cfg, pct, hold) {
        PassedIsForwarded(d, rig.cfg, ok, pct, hold);
      }
    }
  }

  /** Find succeeds with a rate that passes, within the accuracy of the search. */
  ghost predicate AnswersWell(probing: Measure, lab: Measure, cfg: Config, ok: real -> bool, h: History, flow: seq<int>,
                              latency: seq<int>)
  {
    var f := Find(probing, lab, cfg, h, Some((flow, latency))).outcome;
    f.Ok? && Accurate(ok, f.value.ndrPercent, cfg, FindWidth(cfg, f.value.firstRun, ok))
  }

  /** Where the ramp is harmless, Find on the engine's own measurements returns a rate the device forwards, within the
      accuracy of the search, for every device with a no-drop rate. */
  lemma EngineFindIsAccurate(d: Dut, probing: Measure, lab: Measure, rig: Rig, ok: real -> bool, h: History,
                             flow: seq<int>, latency: seq<int>)
    requires OnBench(d, rig, ok, probing, lab) && Exact(rig.cfg) && flow + latency != []
    ensures AnswersWell(probing, lab, rig.cfg, ok, h, flow, latency)
  {
    EngineIsFaithful(d, probing, rig, ok, rig.cfg.firstNanos);
    EngineIsFaithful(d, lab, rig, ok, rig.cfg.iterationNanos);
    FindIsAccurate(probing, lab, ok, rig.cfg, h, flow, latency);
  }

  lemma DilutedIsTestable(cfg: Config, holds: set<int>, hold: int)
    requires !Exact(cfg) && StepsFit(cfg) && hold in holds
    ensures var d := DiluterFor(cfg, 100.0, holds);
            Testable(d, cfg, Below(100.0), hold) && SessionPass(d, cfg, 100.0, hold)
  {
    SomeDeviceIsDiluted(cfg, 100.0, holds, hold);
    forall pct | 0.0 < pct <= 100.0 ensures Countable(DiluterFor(cfg, 100.0, holds), cfg, pct, hold) {
      DiluterIsCountable(cfg, holds, hold, pct);
    }
  }

  /** If the probe at 100% passes, that is the answer. */
  lemma ProbeAnswers(d: Dut, rig: Rig, ok: real -> bool, probing: Measure, lab: Measure, h: History, flow: seq<int>,
                     latency: seq<int>)
    requires OnBench(d, rig, ok, probing, lab) && SessionPass(d, rig.cfg, 100.0, rig.cfg.firstNanos)
    requires flow + latency != []
    ensures var f := Find(probing, lab, rig.cfg, h, Some((flow, latency))).outcome; f.Ok? && f.value.ndrPercent == 100.0
  {
    RunOnBench(d, probing, rig, ok, rig.cfg.firstNanos, h, 100.0);
  }

  /** A diluted device on the bench: its probe passes, and so Find answers a rate it does not forward. */
  lemma DilutedAnswer(cfg: Config, ports: seq<int>, h: History, flow: seq<int>, latency: seq<int>)
    returns (d: Dut, probing: Measure, lab: Measure)
    requires !Exact(cfg) && StepsFit(cfg) && ports != [] && flow + latency != []
    ensures OnBench(d, Rig(ServerOf(d), cfg, ports), Below(100.0), probing, lab)
    ensures var f := Find(probing, lab, cfg, h, Some((flow, latency))).outcome; f.Ok? && f.value.ndrPercent == 100.0
  {
    var holds := {cfg.firstNanos, cfg.iterationNanos};
    d := DiluterFor(cfg, 100.0, holds);
    var rig := Rig(ServerOf(d), cfg, ports);
    probing := (h: History, pct: real) => PerfRun(rig, h, pct, cfg.firstNanos);
    lab := (h: History, pct: real) => PerfRun(rig, h, pct, cfg.iterationNanos);
    DilutedIsTestable(cfg, holds, cfg.firstNanos);
    DilutedIsTestable(cfg, holds, cfg.iterationNanos);
    ProbeAnswers(d, rig, Below(100.0), probing, lab, h, flow, latency);
  }

  /** The condition is exact for the whole of Find: only with it is the answer accurate for every device. */
  lemma EngineIsAccurateIff(cfg: Config, ports: seq<int>, h: History, flow: seq<int>, latency: seq<int>)
    requires StepsFit(cfg) && ports != [] && flow + latency != []
    ensures (forall d, ok, probing, lab | OnBench(d, Rig(ServerOf(d), cfg, ports), ok, probing, lab) ::
               AnswersWell(probing, lab, cfg, ok, h, flow, latency))
            <==> Exact(cfg)
  {
    if Exact(cfg) {
      forall d, ok, probing, lab | OnBench(d, Rig(ServerOf(d), cfg, ports), ok, probing, lab)
        ensures AnswersWell(probing, lab, cfg, ok, h, flow, latency)
      {
        EngineFindIsAccurate(d, probing, lab, Rig(ServerOf(d), cfg, ports), ok, h, flow, latency);
      }
    } else {
      var d, probing, lab := DilutedAnswer(cfg, ports, h, flow, latency);
      assert !Below(100.0)(100.0);
      assert !AnswersWell(probing, lab, cfg, Below(100.0), h, flow, latency);
    }
  }

  /** Where the ramp is harmless, and with enough iterations, the engine's plain and optimized searches of one device
      agree to less than the window. */
  lemma EngineStrategiesAgree(d: Dut, plain: Rig, opt: Rig, probePlain: Measure, labPlain: Measure, probeOpt: Measure,
                              labOpt: Measure, ok: real -> bool, h: History, flow: seq<int>, latency: seq<int>)
    requires plain == opt.(cfg := opt.cfg.(optBinSearch := false)) && opt.cfg.optBinSearch
    requires Meters(probePlain, plain, plain.cfg.firstNanos) && Meters(labPlain, plain, plain.cfg.iterationNanos)
    requires OnBench(d, opt, ok, probeOpt, labOpt) && Exact(opt.cfg) && flow + latency != []
    requires Halve(100.0, Budget(opt.cfg.maxIterations)) <= opt.cfg.pdrError
    ensures var a := Find(probePlain, labPlain, plain.cfg, h, Some((flow, latency))).outcome;
            var b := Find(probeOpt, labOpt, opt.cfg, h, Some((flow, latency))).outcome;
            a.Ok? && b.Ok? && -opt.cfg.pdrError < a.value.ndrPercent - b.value.ndrPercent < opt.cfg.pdrError
  {
    StrategyChangesNoSession(d, opt, ok);
    EngineIsFaithful(d, probePlain, plain, ok, plain.cfg.firstNanos);
    EngineIsFaithful(d, labPlain, plain, ok, plain.cfg.iterationNanos);
    EngineIsFaithful(d, probeOpt, opt, ok, opt.cfg.firstNanos);
    EngineIsFaithful(d, labOpt, opt, ok, opt.cfg.iterationNanos);
    StrategiesAgree(probePlain, labPlain, h, probeOpt, labOpt, h, ok, opt.cfg, flow, latency);
  }

  lemma StrategyChangesNoSession(d: Dut, rig: Rig, ok: real -> bool)
    requires Benched(d, rig, ok)
    ensures Benched(d, rig.(cfg := rig.cfg.(optBinSearch := false)), ok)
  {
    var cfg := rig.cfg.(optBinSearch := false);
    forall pct, hold | 0.0 < pct <= 100.0 && Countable(d, rig.cfg, pct, hold) ensures Countable(d, cfg, pct, hold) {
    }
  }

  /** For every ramp and all limits: the answer is not short of what the device forwards by more than the accuracy, and
      at the answer the device is, over the hold, within limits relaxed by what the ramp adds. */
  lemma EngineFindIsBracketed(d: Dut, probing: Measure, lab: Measure, rig: Rig, ok: real -> bool, h: History,
                              flow: seq<int>, latency: seq<int>, k: real)
    requires OnBench(d, rig, ok, probing, lab) && flow + latency != []
    requires forall pct :: 0.0 < pct <= 100.0 ==> Share(d, rig.cfg, pct, rig.cfg.firstNanos, k)
    requires forall pct :: 0.0 < pct <= 100.0 ==> Share(d, rig.cfg, pct, rig.cfg.iterationNanos, k)
    ensures var f, limits := Find(probing, lab, rig.cfg, h, Some((flow, latency))).outcome, Relaxed(rig.cfg.limits, k);
            && f.Ok?
            && var rate := f.value.ndrPercent;
               && (rate == 100.0 || NearTop(ok, rate, rig.cfg))
               && (|| rate == 0.0 || Within(d, limits, rate, rig.cfg.firstNanos)
                   || Within(d, limits, rate, rig.cfg.iterationNanos))
  {
    var cfg := rig.cfg;
    var limits := Relaxed(cfg.limits, k);
    var fit := (rate: real) =>
      rate == 0.0 || Within(d, limits, rate, cfg.firstNanos) || Within(d, limits, rate, cfg.iterationNanos);
    EngineIsGenerous(d, probing, rig, ok, cfg.firstNanos);
    EngineIsGenerous(d, lab, rig, ok, cfg.iterationNanos);
    FindReachesTop(probing, lab, ok, cfg, h, flow, latency);
    EngineIsSharp(d, probing, rig, ok, cfg.firstNanos, fit, k);
    EngineIsSharp(d, lab, rig, ok, cfg.iterationNanos, fit, k);
    AnswerIsFit(probing, lab, fit, cfg, h, Some((flow, latency)));
  }

  lemma EngineIsSharp(d: Dut, lab: Measure, rig: Rig, ok: real -> bool, hold: int, fit: real -> bool, k: real)
    requires Meters(lab, rig, hold) && rig.server == ServerOf(d) && rig.ports != []
    requires Testable(d, rig.cfg, ok, hold)
    requires forall pct :: 0.0 < pct <= 100.0 ==> Share(d, rig.cfg, pct, hold, k)
    requires forall rate :: rate == 0.0 || Within(d, Relaxed(rig.cfg.limits, k), rate, hold) ==> fit(rate)
    ensures Sharp(lab, fit)
  {
    forall h, pct | IsPercentage(pct) && lab(h, pct).outcome.Some? && lab(h, pct).outcome.value.pass ensures fit(pct) {
      RunOnBench(d, lab, rig, ok, hold, h, pct);
      if pct > 0.0 {
        assert d.sent(pct, hold) > 0 && Share(d, rig.cfg, pct, hold, k);
        PassedIsNearlyForwarded(d, rig.cfg, pct, hold, k);
      }
    }
  }

  /** Where the ramp is harmless, the optimized search of a device that passes exactly up to a rate, and drops just the
      rest of the first run, measures nothing further from that rate than the half-width. */
  lemma EngineLooksAroundRate(d: Dut, probing: Measure, lab: Measure, rig: Rig, ok: real -> bool, h: History,
                              flow: seq<int>, latency: seq<int>, ndr: real, lost: nat, sent: nat)
    requires OnBench(d, rig, ok, probing, lab) && Exact(rig.cfg) && flow + latency != []
    requires rig.cfg.optBinSearch && rig.cfg.optBinSearchPercent > 0.0
    requires forall pct :: (pct < ndr ==> ok(pct)) && (pct > ndr ==> !ok(pct))
    requires rig.cfg.optBinSearchPercent <= ndr <= 100.0 - rig.cfg.optBinSearchPercent
    requires lost == SessionSum(d.lost, rig.cfg, 100.0, rig.cfg.firstNanos)
    requires sent == SessionSum(d.sent, rig.cfg, 100.0, rig.cfg.firstNanos)
    requires 100.0 * lost as real == (100.0 - ndr) * sent as real
    ensures var f := Find(probing, lab, rig.cfg, h, Some((flow, latency))).outcome;
            && f.Ok? && Accurate(ok, f.value.ndrPercent, rig.cfg, 2.0 * rig.cfg.optBinSearchPercent)
            && forall r :: r in f.value.iterations ==>
                 ndr - rig.cfg.optBinSearchPercent <= r.percentage <= ndr + rig.cfg.optBinSearchPercent
  {
    EngineIsFaithful(d, probing, rig, ok, rig.cfg.firstNanos);
    EngineIsFaithful(d, lab, rig, ok, rig.cfg.iterationNanos);
    LabIsSound(lab, rig, rig.cfg.iterationNanos);
    var r := ProbeReports(d, probing, rig, ok, h);
    ReportedDrop(r, lost, sent, 100.0 - ndr);
    FindLooksAroundRate(probing, lab, ok, rig.cfg, h, flow, latency, ndr);
  }

  /** The first run reports what the session at 100% sends and loses. */
  lemma ProbeReports(d: Dut, probing: Measure, rig: Rig, ok: real -> bool, h: History) returns (r: RunResult)
    requires Meters(probing, rig, rig.cfg.firstNanos) && rig.server == ServerOf(d) && rig.ports != []
    requires Testable(d, rig.cfg, ok, rig.cfg.firstNanos)
    ensures probing(h, 100.0).outcome == Some(r) && PercentagesOf(r) && r.txPkts > 0
    ensures r.drop == SessionSum(d.lost, rig.cfg, 100.0, rig.cfg.firstNanos)
    ensures r.txPkts == SessionSum(d.sent, rig.cfg, 100.0, rig.cfg.firstNanos)
  {
    assert probing(h, 100.0) == PerfRun(rig, h, 100.0, rig.cfg.firstNanos);
    PerfRunMeasures(d, rig, h, 100.0, rig.cfg.firstNanos);
    HoldIsCounted(d.sent, rig.cfg, 100.0, rig.cfg.firstNanos);
    r := probing(h, 100.0).outcome.value;
  }

  lemma ReportedDrop(r: RunResult, lost: nat, sent: nat, drop: real)
    requires PercentagesOf(r) && r.drop == lost && r.txPkts == sent && sent > 0
    requires 100.0 * lost as real == drop * sent as real
    ensures r.dropPct == drop
  {
    assert (r.dropPct - drop) * sent as real == 0.0;
  }

  // ----- the devices these theorems speak of

  /** Sends a packet in every wait, and what it does not forward it loses and reports in error. */
  function DeviceOf(ok: real -> bool): Dut {
    var failing: Flow := (rate, t) => if rate > 0.0 && !ok(rate) then 1 else 0;
    Dut((rate, t) => if rate > 0.0 then 1 else 0, failing, (rate, t) => 0, failing)
  }

  /** Every monotone behaviour that fails at 100% is that of some device, for every ramp and all limits that are not
      negative. */
  lemma EveryBehaviourHasADevice(ok: real -> bool, cfg: Config, hold: int)
    requires cfg.limits.pdr >= 0.0 && cfg.limits.qfullResolution >= 0.0 && Device(ok) && StepsFit(cfg)
    ensures Testable(DeviceOf(ok), cfg, ok, hold)
  {
    var d := DeviceOf(ok);
    forall rate, t ensures LossAt(d, rate, t) {
    }
    forall rate, t | IsPercentage(rate) && ok(rate) ensures Within(d, cfg.limits, rate, t) {
    }
    forall pct | 0.0 < pct <= 100.0 ensures Countable(d, cfg, pct, hold) {
      AtMostOneEach(d.sent, cfg, pct, hold);
      AtMostOneEach(d.refused, cfg, pct, hold);
      AtMostOneEach(d.errors, cfg, pct, hold);
    }
  }

  lemma AtMostOneEach(f: Flow, cfg: Config, pct: real, hold: int)
    requires forall rate, t :: f(rate, t) <= 1
    ensures SessionSum(f, cfg, pct, hold) <= RampSteps(cfg.rampUpTime) + 1
  {
    var steps := RampSteps(cfg.rampUpTime);
    AtMostOnePerStep(f, RampInterval(cfg.rampUpTime), RampRate(pct, steps), 1, steps);
  }

  lemma {:induction false} AtMostOnePerStep(f: Flow, interval: int, rate: int -> real, i: int, steps: int)
    requires i <= steps && forall rate, t :: f(rate, t) <= 1
    ensures RampSum(f, interval, rate, i, steps) <= steps - i
    decreases steps - i
  {
    if i < steps {
      AtMostOnePerStep(f, interval, rate, i + 1, steps);
      assert f(rate(i), interval) <= 1;
    }
  }
}
