/** What counting the ramp does to a verdict. The slower steps of the ramp send packets too, and with a positive limit
    their clean traffic makes room for losses at the target rate. */
module Dilution {
  import opened Prelude
  import opened Counters
  import opened Traffic
  import opened Search
  import opened Sessions

  /** Over t nanoseconds at this rate the device is within the limits. */
  predicate Within(d: Dut, limits: Limits, rate: real, t: int) {
    && AtMost(d.lost, d.sent, limits.pdr, rate, t)
    && AtMost(d.refused, d.sent, limits.qfullResolution, rate, t)
    && d.errors(rate, t) == 0
  }

  /** Part is at most this percentage of the whole. */
  predicate AtMost(part: Flow, whole: Flow, limit: real, rate: real, t: int) {
    100.0 * part(rate, t) as real <= limit * whole(rate, t) as real
  }

  /** Nothing happens while nothing is driven. */
  ghost predicate Silent(d: Dut) {
    forall t :: d.sent(0.0, t) == 0 && d.refused(0.0, t) == 0 && d.errors(0.0, t) == 0
  }

  /** The device forwards the rates that are ok, for however long, and over the hold it forwards no other. */
  ghost predicate Forwards(d: Dut, limits: Limits, ok: real -> bool, hold: int) {
    && (forall rate, t :: IsPercentage(rate) && ok(rate) ==> Within(d, limits, rate, t))
    && (forall rate :: 0.0 < rate <= 100.0 ==> d.sent(rate, hold) > 0 && (Within(d, limits, rate, hold) ==> ok(rate)))
  }

  ghost predicate Steady(d: Dut, limits: Limits, ok: real -> bool, hold: int) {
    LosesOnlySent(d) && Silent(d) && Forwards(d, limits, ok, hold)
  }

  // ----- a rate the device forwards passes, whatever the ramp

  lemma RampBetween(pct: real, steps: int, j: int)
    requires pct > 0.0 && 1 <= j < steps
    ensures 0.0 < RampRate(pct, steps)(j) < pct
    ensures j >= 2 ==> RampRate(pct, steps)(1) < RampRate(pct, steps)(j)
  {
    RampRateSteps(pct, steps);
    RateRises(pct, steps, 0, j);
    RateRises(pct, steps, j, steps);
    if j >= 2 { RateRises(pct, steps, 1, j); }
  }

  lemma RateRises(pct: real, steps: int, j: int, k: int)
    requires pct > 0.0 && steps >= 1 && j < k
    ensures RampRate(pct, steps)(j) < RampRate(pct, steps)(k)
  {
    RateIsShare(pct, steps, j);
    RateIsShare(pct, steps, k);
    Stretch(j as real, k as real, pct / steps as real);
  }

  lemma RateIsShare(pct: real, steps: int, j: int)
    requires pct > 0.0 && steps >= 1
    ensures pct / steps as real > 0.0 && RampRate(pct, steps)(j) == j as real * (pct / steps as real)
  {
    Quotient(pct, j as real, steps as real);
    var share := pct / steps as real;
    assert share * steps as real == pct;
    assert share * j as real == j as real * share;
    Positive(share, steps as real);
  }

  lemma Positive(a: real, b: real)
    requires a * b > 0.0 && b > 0.0
    ensures a > 0.0
  {
  }

  lemma Quotient(a: real, b: real, c: real)
    requires c > 0.0
    ensures a * b / c == a / c * b
  {
    assert a / c * b * c == a * b;
  }

  lemma Distribute(limit: real, part: nat, whole: nat, part': nat, whole': nat)
    requires 100.0 * part as real <= limit * whole as real && 100.0 * part' as real <= limit * whole' as real
    ensures 100.0 * (part + part') as real <= limit * (whole + whole') as real
  {
    assert limit * (whole + whole') as real == limit * whole as real + limit * whole' as real;
  }

  lemma {:induction false} RampWithin(part: Flow, whole: Flow, limit: real, interval: int, rate: int -> real,
                                      i: int, steps: int)
    requires forall j :: i <= j < steps ==> AtMost(part, whole, limit, rate(j), interval)
    ensures 100.0 * RampSum(part, interval, rate, i, steps) as real
         <= limit * RampSum(whole, interval, rate, i, steps) as real
    decreases steps - i
  {
    if i < steps {
      RampWithin(part, whole, limit, interval, rate, i + 1, steps);
      Distribute(limit, part(rate(i), interval), whole(rate(i), interval),
                 RampSum(part, interval, rate, i + 1, steps), RampSum(whole, interval, rate, i + 1, steps));
    }
  }

  lemma {:induction false} RampClean(f: Flow, interval: int, rate: int -> real, i: int, steps: int)
    requires forall j :: i <= j < steps ==> f(rate(j), interval) == 0
    ensures RampSum(f, interval, rate, i, steps) == 0
    decreases steps - i
  {
    if i < steps { RampClean(f, interval, rate, i + 1, steps); }
  }

  lemma SessionWithin(part: Flow, whole: Flow, limit: real, cfg: Config, pct: real, hold: int)
    requires var steps, t := RampSteps(cfg.rampUpTime), RampInterval(cfg.rampUpTime);
             forall j :: 1 <= j < steps ==> AtMost(part, whole, limit, RampRate(pct, steps)(j), t)
    requires AtMost(part, whole, limit, pct, hold)
    requires part(0.0, cfg.drainNanos) == 0 && whole(0.0, cfg.drainNanos) == 0
    ensures 100.0 * SessionSum(part, cfg, pct, hold) as real <= limit * SessionSum(whole, cfg, pct, hold) as real
  {
    var steps, t := RampSteps(cfg.rampUpTime), RampInterval(cfg.rampUpTime);
    var rate := RampRate(pct, steps);
    RampWithin(part, whole, limit, t, rate, 1, steps);
    Distribute(limit, RampSum(part, t, rate, 1, steps), RampSum(whole, t, rate, 1, steps),
               part(pct, hold), whole(pct, hold));
  }

  lemma SessionClean(f: Flow, cfg: Config, pct: real, hold: int)
    requires var steps := RampSteps(cfg.rampUpTime);
             forall j :: 1 <= j < steps ==> f(RampRate(pct, steps)(j), RampInterval(cfg.rampUpTime)) == 0
    requires f(pct, hold) == 0 && f(0.0, cfg.drainNanos) == 0
    ensures SessionSum(f, cfg, pct, hold) == 0
  {
    var steps := RampSteps(cfg.rampUpTime);
    RampClean(f, RampInterval(cfg.rampUpTime), RampRate(pct, steps), 1, steps);
  }

  lemma HoldIsCounted(f: Flow, cfg: Config, pct: real, hold: int)
    ensures f(pct, hold) <= SessionSum(f, cfg, pct, hold)
  {
  }

  lemma RampForwards(d: Dut, limits: Limits, ok: real -> bool, hold: int, pct: real, steps: int, t: int)
    requires Forwards(d, limits, ok, hold) && Monotone(ok) && 0.0 < pct <= 100.0 && ok(pct) && steps >= 1
    ensures forall j :: 1 <= j < steps ==> Within(d, limits, RampRate(pct, steps)(j), t)
  {
    forall j | 1 <= j < steps ensures Within(d, limits, RampRate(pct, steps)(j), t) {
      RampBetween(pct, steps, j);
      assert IsPercentage(RampRate(pct, steps)(j)) && ok(RampRate(pct, steps)(j));
    }
  }

  /** For every ramp and all limits, a session passes at a rate the device forwards. */
  lemma ForwardedPasses(d: Dut, cfg: Config, ok: real -> bool, pct: real, hold: int)
    requires Steady(d, cfg.limits, ok, hold) && Monotone(ok) && 0.0 < pct <= 100.0 && ok(pct)
    ensures SessionPass(d, cfg, pct, hold)
  {
    var steps, t := RampSteps(cfg.rampUpTime), RampInterval(cfg.rampUpTime);
    RampForwards(d, cfg.limits, ok, hold, pct, steps, t);
    assert IsPercentage(pct) && Within(d, cfg.limits, pct, hold);
    assert LossAt(d, 0.0, cfg.drainNanos) && d.sent(0.0, cfg.drainNanos) == 0;
    SessionWithin(d.lost, d.sent, cfg.limits.pdr, cfg, pct, hold);
    SessionWithin(d.refused, d.sent, cfg.limits.qfullResolution, cfg, pct, hold);
    SessionClean(d.errors, cfg, pct, hold);
    HoldIsCounted(d.sent, cfg, pct, hold);
  }

  // ----- when a rate it does not forward fails

  const MAX_COUNT := TWO_64 - 1

  /** A limit that what one wait sends cannot use for another: it allows nothing, it allows everything, or over a whole
      counter it does not amount to one packet. */
  predicate LossExact(pdr: real) {
    pdr <= 0.0 || pdr >= 100.0 || pdr * MAX_COUNT as real < 100.0
  }

  predicate QueueExact(q: real) {
    q <= 0.0 || q >= 100.0 * MAX_COUNT as real || q * MAX_COUNT as real < 100.0
  }

  predicate Undiluted(limits: Limits) {
    limits.pdr < 0.0 || limits.qfullResolution < 0.0 || (LossExact(limits.pdr) && QueueExact(limits.qfullResolution))
  }

  /** Traffic starts straight at the target, or it makes no difference that it does not. */
  predicate Exact(cfg: Config) {
    RampSteps(cfg.rampUpTime) == 1 || Undiluted(cfg.limits)
  }

  /** A limit that is small enough and broken over part of a session is broken over all of it. */
  lemma StaysBroken(limit: real, part: nat, whole: nat, parts: nat, wholes: nat)
    requires limit <= 0.0 || limit * MAX_COUNT as real < 100.0
    requires 100.0 * part as real > limit * whole as real && part <= parts && 1 <= whole <= wholes <= MAX_COUNT
    ensures 100.0 * parts as real > limit * wholes as real
  {
    if limit < 0.0 {
      Stretch(1.0, wholes as real, -limit);
    } else if limit == 0.0 {
      assert part >= 1;
    } else {
      Stretch(0.0, limit, whole as real);
      assert part >= 1;
      Stretch(wholes as real, MAX_COUNT as real, limit);
    }
  }

  /** A limit that can be broken is not too large for it. */
  lemma BreakableLimit(limit: real, part: nat, whole: nat, most: nat)
    requires 100.0 * part as real > limit * whole as real && whole >= 1 && part <= most * whole
    ensures limit < 100.0 * most as real
  {
    assert (most * whole) as real == most as real * whole as real;
    if limit >= 100.0 * most as real {
      Stretch(100.0 * most as real, limit, whole as real);
    }
  }

  lemma LossStaysBroken(d: Dut, cfg: Config, pct: real, hold: int)
    requires Countable(d, cfg, pct, hold) && d.sent(pct, hold) >= 1 && LossExact(cfg.limits.pdr)
    requires 100.0 * d.lost(pct, hold) as real > cfg.limits.pdr * d.sent(pct, hold) as real
    ensures !SessionPass(d, cfg, pct, hold)
  {
    assert LossAt(d, pct, hold);
    BreakableLimit(cfg.limits.pdr, d.lost(pct, hold), d.sent(pct, hold), 1);
    StaysBroken(cfg.limits.pdr, d.lost(pct, hold), d.sent(pct, hold),
                SessionSum(d.lost, cfg, pct, hold), SessionSum(d.sent, cfg, pct, hold));
  }

  lemma RefusalStaysBroken(d: Dut, cfg: Config, pct: real, hold: int)
    requires Countable(d, cfg, pct, hold) && d.sent(pct, hold) >= 1 && QueueExact(cfg.limits.qfullResolution)
    requires 100.0 * d.refused(pct, hold) as real > cfg.limits.qfullResolution * d.sent(pct, hold) as real
    ensures !SessionPass(d, cfg, pct, hold)
  {
    BreakableLimit(cfg.limits.qfullResolution, d.refused(pct, hold), d.sent(pct, hold), MAX_COUNT);
    StaysBroken(cfg.limits.qfullResolution, d.refused(pct, hold), d.sent(pct, hold),
                SessionSum(d.refused, cfg, pct, hold), SessionSum(d.sent, cfg, pct, hold));
  }

  /** With a negative limit nothing passes that sends anything. */
  lemma NegativeLimitFails(d: Dut, cfg: Config, pct: real, hold: int)
    requires cfg.limits.pdr < 0.0 || cfg.limits.qfullResolution < 0.0
    requires SessionSum(d.sent, cfg, pct, hold) >= 1
    ensures !SessionPass(d, cfg, pct, hold)
  {
    var tx := SessionSum(d.sent, cfg, pct, hold) as real;
    if cfg.limits.pdr < 0.0 {
      Stretch(cfg.limits.pdr, 0.0, tx);
    } else {
      Stretch(cfg.limits.qfullResolution, 0.0, tx);
    }
  }

  /** Without a ramp a session is its hold. */
  lemma RamplessSession(d: Dut, cfg: Config, pct: real, hold: int)
    requires RampSteps(cfg.rampUpTime) == 1 && LosesOnlySent(d) && Silent(d) && d.sent(pct, hold) >= 1
    ensures SessionPass(d, cfg, pct, hold) <==> Within(d, cfg.limits, pct, hold)
  {
    assert LossAt(d, 0.0, cfg.drainNanos);
    assert d.sent(0.0, cfg.drainNanos) == 0;
  }

  /** A session that passes was held at a rate the device forwards, where the ramp is harmless. */
  lemma PassedIsForwarded(d: Dut, cfg: Config, ok: real -> bool, pct: real, hold: int)
    requires Exact(cfg) && Steady(d, cfg.limits, ok, hold) && Countable(d, cfg, pct, hold) && 0.0 < pct <= 100.0
    requires SessionPass(d, cfg, pct, hold)
    ensures ok(pct)
  {
    if !ok(pct) {
      assert d.sent(pct, hold) >= 1 && !Within(d, cfg.limits, pct, hold);
      if RampSteps(cfg.rampUpTime) == 1 {
        RamplessSession(d, cfg, pct, hold);
      } else if cfg.limits.pdr < 0.0 || cfg.limits.qfullResolution < 0.0 {
        NegativeLimitFails(d, cfg, pct, hold);
      } else if d.errors(pct, hold) == 0 {
        if 100.0 * d.lost(pct, hold) as real > cfg.limits.pdr * d.sent(pct, hold) as real {
          LossStaysBroken(d, cfg, pct, hold);
        } else {
          RefusalStaysBroken(d, cfg, pct, hold);
        }
      }
    }
  }

  // ----- and when it passes

  /** The behaviour of a device that forwards exactly what is below a rate. */
  function Below(pct: real): real -> bool {
    rate => rate < pct
  }

  /** A device whose first ramp step sends m packets and whose holds send one, of which `lose` is lost, and `refuse`
      more are refused, from the target rate on. */
  function Diluter(first: real, interval: int, pct: real, holds: set<int>, m: nat, lose: nat, refuse: nat): Dut {
    Dut((rate, t) =>
          if rate <= 0.0 then 0 else if rate == first && t == interval then m else if t in holds then 1 else 0,
        (rate, t) => if rate >= pct && t in holds then lose else 0,
        (rate, t) => if rate >= pct && t in holds then refuse else 0,
        (rate, t) => 0)
  }

  /** What a later step of the ramp sends: nothing, unless it lasts as long as a hold. */
  function Later(interval: int, holds: set<int>): nat {
    if interval in holds then 1 else 0
  }

  lemma {:induction false} RampOfEqual(f: Flow, interval: int, rate: int -> real, i: int, steps: int, each: nat)
    requires i <= steps && forall j :: i <= j < steps ==> f(rate(j), interval) == each
    ensures RampSum(f, interval, rate, i, steps) == (steps - i) * each
    decreases steps - i
  {
    if i < steps { RampOfEqual(f, interval, rate, i + 1, steps, each); }
  }

  lemma RampOrder(pct: real, steps: int)
    requires pct > 0.0 && steps >= 1
    ensures forall j :: 1 <= j < steps ==> 0.0 < RampRate(pct, steps)(j) < pct
    ensures forall j :: 2 <= j < steps ==> RampRate(pct, steps)(1) < RampRate(pct, steps)(j)
  {
    forall j | 1 <= j < steps
      ensures 0.0 < RampRate(pct, steps)(j) < pct && (j >= 2 ==> RampRate(pct, steps)(1) < RampRate(pct, steps)(j))
    {
      RampBetween(pct, steps, j);
    }
  }

  lemma DiluterSums(cfg: Config, pct: real, holds: set<int>, hold: int, m: nat, lose: nat, refuse: nat)
    requires 0.0 < pct && RampSteps(cfg.rampUpTime) >= 2 && hold in holds
    ensures var steps, t := RampSteps(cfg.rampUpTime), RampInterval(cfg.rampUpTime);
            var d := Diluter(RampRate(pct, steps)(1), t, pct, holds, m, lose, refuse);
            && SessionSum(d.sent, cfg, pct, hold) == m + (steps - 2) * Later(t, holds) + 1
            && SessionSum(d.lost, cfg, pct, hold) == lose
            && SessionSum(d.refused, cfg, pct, hold) == refuse
            && SessionSum(d.errors, cfg, pct, hold) == 0
  {
    var steps, t := RampSteps(cfg.rampUpTime), RampInterval(cfg.rampUpTime);
    var rate := RampRate(pct, steps);
    var d := Diluter(rate(1), t, pct, holds, m, lose, refuse);
    RampOrder(pct, steps);
    RampClean(d.lost, t, rate, 1, steps);
    RampClean(d.refused, t, rate, 1, steps);
    RampClean(d.errors, t, rate, 1, steps);
    RampOfEqual(d.sent, t, rate, 2, steps, Later(t, holds));
  }

  lemma DiluterIsSteady(limits: Limits, first: real, interval: int, pct: real, holds: set<int>, hold: int, m: nat,
                        lose: nat, refuse: nat)
    requires 0.0 < first < pct <= 100.0 && m >= 1 && lose <= 1 && limits.pdr >= 0.0 && limits.qfullResolution >= 0.0
    requires 100.0 * lose as real > limits.pdr || 100.0 * refuse as real > limits.qfullResolution
    requires hold in holds
    ensures Steady(Diluter(first, interval, pct, holds, m, lose, refuse), limits, Below(pct), hold)
  {
    var d := Diluter(first, interval, pct, holds, m, lose, refuse);
    forall rate, t | IsPercentage(rate) && Below(pct)(rate) ensures Within(d, limits, rate, t) {
    }
    forall rate, t ensures LossAt(d, rate, t) {
    }
  }

  /** One packet lost, or so many refused that the hold alone breaks the limit. */
  function LosesOne(limits: Limits): nat {
    if LossExact(limits.pdr) then 0 else 1
  }

  function RefusesTooMany(limits: Limits): nat {
    if !LossExact(limits.pdr) || limits.qfullResolution < 0.0 then 0 else (limits.qfullResolution / 100.0).Floor + 1
  }

  lemma TooMany(q: real)
    requires !QueueExact(q)
    ensures var n := (q / 100.0).Floor + 1; 0 <= n <= MAX_COUNT && q < 100.0 * n as real <= q * MAX_COUNT as real
  {
    var n := (q / 100.0).Floor + 1;
    if q >= 100.0 {
      Stretch(2.0, MAX_COUNT as real, q);
    } else {
      assert n == 1;
    }
  }

  /** The number of steps is a Go int. */
  predicate StepsFit(cfg: Config) {
    RampSteps(cfg.rampUpTime) < 0x8000_0000_0000_0000
  }

  /** What the first step of a diluter sends: with the rest of the session it just fits a counter. */
  function FirstStep(cfg: Config, holds: set<int>): nat
    requires StepsFit(cfg)
  {
    MAX_COUNT - 1 - (RampSteps(cfg.rampUpTime) - 2) * Later(RampInterval(cfg.rampUpTime), holds)
  }

  function DiluterFor(cfg: Config, pct: real, holds: set<int>): Dut
    requires StepsFit(cfg)
  {
    Diluter(RampRate(pct, RampSteps(cfg.rampUpTime))(1), RampInterval(cfg.rampUpTime), pct, holds,
            FirstStep(cfg, holds), LosesOne(cfg.limits), RefusesTooMany(cfg.limits))
  }

  /** Behind a ramp, with limits that can be diluted, some device passes at a rate it does not forward. */
  lemma SomeDeviceIsDiluted(cfg: Config, pct: real, holds: set<int>, hold: int)
    requires 0.0 < pct <= 100.0 && !Exact(cfg) && StepsFit(cfg) && hold in holds
    ensures var d := DiluterFor(cfg, pct, holds);
            Steady(d, cfg.limits, Below(pct), hold) && Countable(d, cfg, pct, hold) && SessionPass(d, cfg, pct, hold)
  {
    var steps, t, limits := RampSteps(cfg.rampUpTime), RampInterval(cfg.rampUpTime), cfg.limits;
    var m, lose, refuse := FirstStep(cfg, holds), LosesOne(limits), RefusesTooMany(limits);
    RampBetween(pct, steps, 1);
    if LossExact(limits.pdr) {
      TooMany(limits.qfullResolution);
    }
    DiluterSums(cfg, pct, holds, hold, m, lose, refuse);
    DiluterIsSteady(limits, RampRate(pct, steps)(1), t, pct, holds, hold, m, lose, refuse);
  }

  lemma {:induction false} AtMostOneFirst(f: Flow, t: int, rate: int -> real, first: real, i: int, steps: int, m: nat,
                                          each: nat)
    requires i < steps && each <= m
    requires forall j :: i <= j < steps ==> f(rate(j), t) == if rate(j) == first then m else each
    requires forall j, k :: i <= j < k < steps ==> rate(j) < rate(k)
    ensures RampSum(f, t, rate, i, steps) <= m + (steps - 1 - i) * each
    decreases steps - i
  {
    assert RampSum(f, t, rate, steps, steps) == 0;
    if i + 1 < steps {
      if rate(i) == first {
        RampOfEqual(f, t, rate, i + 1, steps, each);
      } else {
        AtMostOneFirst(f, t, rate, first, i + 1, steps, m, each);
        assert (steps - 1 - i) * each == (steps - 2 - i) * each + each;
      }
    }
  }

  lemma RampRises(pct: real, steps: int)
    requires pct > 0.0 && steps >= 1
    ensures forall j, k :: 1 <= j < k < steps ==> RampRate(pct, steps)(j) < RampRate(pct, steps)(k)
  {
    forall j, k | 1 <= j < k < steps ensures RampRate(pct, steps)(j) < RampRate(pct, steps)(k) {
      RateRises(pct, steps, j, k);
    }
  }

  lemma DiluterSendsAtMost(cfg: Config, first: real, top: real, holds: set<int>, hold: int, m: nat, lose: nat,
                           refuse: nat, pct: real)
    requires 0.0 < pct && 0.0 < first && m >= 1 && RampSteps(cfg.rampUpTime) >= 2 && hold in holds
    ensures var steps, t := RampSteps(cfg.rampUpTime), RampInterval(cfg.rampUpTime);
            SessionSum(Diluter(first, t, top, holds, m, lose, refuse).sent, cfg, pct, hold)
            <= m + (steps - 2) * Later(t, holds) + 1
  {
    var steps, t := RampSteps(cfg.rampUpTime), RampInterval(cfg.rampUpTime);
    var d, rate := Diluter(first, t, top, holds, m, lose, refuse), RampRate(pct, steps);
    RampOrder(pct, steps);
    if pct == first && hold == t {
      RampOfEqual(d.sent, t, rate, 1, steps, 1);
    } else {
      RampRises(pct, steps);
      AtMostOneFirst(d.sent, t, rate, first, 1, steps, m, Later(t, holds));
    }
  }

  lemma DiluterRefusesAtMost(cfg: Config, first: real, top: real, holds: set<int>, hold: int, m: nat, lose: nat,
                             refuse: nat, pct: real)
    requires 0.0 < pct <= top
    ensures var d := Diluter(first, RampInterval(cfg.rampUpTime), top, holds, m, lose, refuse);
            SessionSum(d.refused, cfg, pct, hold) <= refuse && SessionSum(d.errors, cfg, pct, hold) == 0
  {
    var steps, t := RampSteps(cfg.rampUpTime), RampInterval(cfg.rampUpTime);
    var d := Diluter(first, t, top, holds, m, lose, refuse);
    RampOrder(pct, steps);
    RampClean(d.refused, t, RampRate(pct, steps), 1, steps);
    RampClean(d.errors, t, RampRate(pct, steps), 1, steps);
  }

  /** A diluter at the top rate can be counted at every rate. */
  lemma DiluterIsCountable(cfg: Config, holds: set<int>, hold: int, pct: real)
    requires 0.0 < pct <= 100.0 && !Exact(cfg) && StepsFit(cfg) && hold in holds
    ensures Countable(DiluterFor(cfg, 100.0, holds), cfg, pct, hold)
  {
    var first := RampRate(100.0, RampSteps(cfg.rampUpTime))(1);
    var m, lose, refuse := FirstStep(cfg, holds), LosesOne(cfg.limits), RefusesTooMany(cfg.limits);
    RampBetween(100.0, RampSteps(cfg.rampUpTime), 1);
    SomeDeviceIsDiluted(cfg, 100.0, holds, hold);
    DiluterSums(cfg, 100.0, holds, hold, m, lose, refuse);
    DiluterSendsAtMost(cfg, first, 100.0, holds, hold, m, lose, refuse, pct);
    DiluterRefusesAtMost(cfg, first, 100.0, holds, hold, m, lose, refuse, pct);
  }

  /** For which configurations the verdict at a rate is the device's own behaviour at it, whatever device and whatever
      it forwards: those that start straight at the target or whose limits cannot be diluted. */
  lemma RampIsHarmlessIff(cfg: Config, pct: real, hold: int)
    requires 0.0 < pct <= 100.0 && StepsFit(cfg)
    ensures (forall d, ok | Device(ok) && Steady(d, cfg.limits, ok, hold) && Countable(d, cfg, pct, hold) ::
               SessionPass(d, cfg, pct, hold) <==> ok(pct))
            <==> Exact(cfg)
  {
    if Exact(cfg) {
      forall d, ok | Device(ok) && Steady(d, cfg.limits, ok, hold) && Countable(d, cfg, pct, hold)
        ensures SessionPass(d, cfg, pct, hold) <==> ok(pct)
      {
        if ok(pct) {
          ForwardedPasses(d, cfg, ok, pct, hold);
        } else if SessionPass(d, cfg, pct, hold) {
          PassedIsForwarded(d, cfg, ok, pct, hold);
        }
      }
    } else {
      SomeDeviceIsDiluted(cfg, pct, {hold}, hold);
      var d, ok := DiluterFor(cfg, pct, {hold}), Below(pct);
      assert Device(ok) && Steady(d, cfg.limits, ok, hold) && !ok(pct);
    }
  }

  // ----- how much passes

  /** The session sends at most k times what its hold sends. */
  predicate Share(d: Dut, cfg: Config, pct: real, hold: int, k: real) {
    SessionSum(d.sent, cfg, pct, hold) as real <= k * d.sent(pct, hold) as real
  }

  function Relaxed(limits: Limits, k: real): Limits {
    Limits(k * limits.pdr, k * limits.qfullResolution)
  }

  lemma RelaxedLimit(limit: real, part: nat, whole: nat, parts: nat, wholes: nat, k: real)
    requires 100.0 * parts as real <= limit * wholes as real && wholes as real <= k * whole as real
    requires part <= parts && 1 <= whole <= wholes
    ensures 100.0 * part as real <= k * limit * whole as real
  {
    if limit < 0.0 {
      Stretch(limit, 0.0, wholes as real);
    } else if limit > 0.0 {
      Stretch(wholes as real, k * whole as real, limit);
      assert k * whole as real * limit == k * limit * whole as real;
    }
  }

  /** A session that passes was held at a rate the device forwards within limits relaxed by that factor. */
  lemma PassedIsNearlyForwarded(d: Dut, cfg: Config, pct: real, hold: int, k: real)
    requires SessionPass(d, cfg, pct, hold) && Share(d, cfg, pct, hold, k) && d.sent(pct, hold) > 0
    ensures Within(d, Relaxed(cfg.limits, k), pct, hold)
  {
    HoldIsCounted(d.sent, cfg, pct, hold);
    HoldIsCounted(d.lost, cfg, pct, hold);
    HoldIsCounted(d.refused, cfg, pct, hold);
    HoldIsCounted(d.errors, cfg, pct, hold);
    HoldIsNearlyWithin(d, cfg.limits, pct, hold, k, SessionSum(d.sent, cfg, pct, hold),
                       SessionSum(d.lost, cfg, pct, hold), SessionSum(d.refused, cfg, pct, hold));
  }

  lemma HoldIsNearlyWithin(d: Dut, limits: Limits, pct: real, hold: int, k: real, sent: nat, lost: nat, refused: nat)
    requires Verdict(limits, sent, lost, refused, 0) && sent as real <= k * d.sent(pct, hold) as real
    requires 0 < d.sent(pct, hold) <= sent && d.lost(pct, hold) <= lost && d.refused(pct, hold) <= refused
    requires d.errors(pct, hold) == 0
    ensures Within(d, Relaxed(limits, k), pct, hold)
  {
    RelaxedLimit(limits.pdr, d.lost(pct, hold), d.sent(pct, hold), lost, sent, k);
    RelaxedLimit(limits.qfullResolution, d.refused(pct, hold), d.sent(pct, hold), refused, sent, k);
  }

  /** Each ramp step sends at most in proportion to its rate and length. */
  ghost predicate InProportion(d: Dut, cfg: Config, pct: real, hold: int) {
    var steps, t := RampSteps(cfg.rampUpTime), RampInterval(cfg.rampUpTime);
    forall j :: 1 <= j < steps ==> StepShare(d, pct, hold, RampRate(pct, steps)(j), t, j, steps)
  }

  predicate StepShare(d: Dut, pct: real, hold: int, rate: real, t: int, j: int, steps: int) {
    d.sent(rate, t) * steps * hold <= d.sent(pct, hold) * j * t
  }

  lemma {:induction false} RampShare(d: Dut, pct: real, hold: int, t: int, rate: int -> real, i: int, steps: int)
    requires 1 <= i <= steps && forall j :: 1 <= j < steps ==> StepShare(d, pct, hold, rate(j), t, j, steps)
    ensures 2 * (RampSum(d.sent, t, rate, i, steps) * steps * hold)
         <= d.sent(pct, hold) * t * (steps * (steps - 1) - i * (i - 1))
    decreases steps - i
  {
    var held, here, rest := d.sent(pct, hold), d.sent(rate(i), t), RampSum(d.sent, t, rate, i + 1, steps);
    if i < steps {
      RampShare(d, pct, hold, t, rate, i + 1, steps);
      assert StepShare(d, pct, hold, rate(i), t, i, steps);
      StepAdds(held, here, rest, t, i, steps, hold);
    }
  }

  lemma StepAdds(held: int, here: int, rest: int, t: int, i: int, steps: int, hold: int)
    requires here * steps * hold <= held * i * t
    requires 2 * (rest * steps * hold) <= held * t * (steps * (steps - 1) - (i + 1) * i)
    ensures 2 * ((here + rest) * steps * hold) <= held * t * (steps * (steps - 1) - i * (i - 1))
  {
    var u := held * t;
    assert held * i * t == u * i;
    assert (here + rest) * steps * hold == here * steps * hold + rest * steps * hold;
    assert steps * (steps - 1) - i * (i - 1) == (steps * (steps - 1) - (i + 1) * i) + 2 * i;
    assert u * ((steps * (steps - 1) - (i + 1) * i) + 2 * i) == u * (steps * (steps - 1) - (i + 1) * i) + u * (2 * i);
  }

  function RampNanos(cfg: Config): real {
    if cfg.rampUpTime > 0.0 then cfg.rampUpTime * SECOND else 0.0
  }

  /** The hold and half the ramp, in terms of the hold. */
  function RampFactor(cfg: Config, hold: int): real
    requires hold > 0
  {
    1.0 + RampNanos(cfg) / (2.0 * hold as real)
  }

  lemma RampIsWithin(cfg: Config)
    ensures ((RampSteps(cfg.rampUpTime) - 1) * RampInterval(cfg.rampUpTime)) as real <= RampNanos(cfg)
  {
    if cfg.rampUpTime > 0.0 {
      RampTiming(cfg.rampUpTime);
    }
  }

  /** The ramp's packets, and its length less one step. */
  lemma RampPart(d: Dut, cfg: Config, pct: real, hold: int) returns (ramp: nat, span: int)
    requires InProportion(d, cfg, pct, hold) && Silent(d)
    ensures SessionSum(d.sent, cfg, pct, hold) == ramp + d.sent(pct, hold)
    ensures 2 * (ramp * hold) <= d.sent(pct, hold) * span && span as real <= RampNanos(cfg)
  {
    var steps, t := RampSteps(cfg.rampUpTime), RampInterval(cfg.rampUpTime);
    ramp, span := RampSum(d.sent, t, RampRate(pct, steps), 1, steps), (steps - 1) * t;
    RampShare(d, pct, hold, t, RampRate(pct, steps), 1, steps);
    CancelSteps(d.sent(pct, hold), ramp, t, steps, hold);
    RampIsWithin(cfg);
    assert d.sent(0.0, cfg.drainNanos) == 0;
  }

  lemma CancelSteps(held: nat, ramp: nat, t: int, steps: int, hold: int)
    requires steps >= 1 && 2 * (ramp * steps * hold) <= held * t * (steps * (steps - 1) - 1 * (1 - 1))
    ensures 2 * (ramp * hold) <= held * ((steps - 1) * t)
  {
    assert held * t * (steps * (steps - 1)) == steps * (held * ((steps - 1) * t));
    assert 2 * (ramp * steps * hold) == steps * (2 * (ramp * hold));
  }

  /** Then the ramp adds at most half its length to the hold: with the default ramp of 1 s and hold of 20 s, limits are
      relaxed by at most 2.5%. */
  lemma RampAddsHalf(d: Dut, cfg: Config, pct: real, hold: int)
    requires InProportion(d, cfg, pct, hold) && Silent(d) && hold > 0
    ensures Share(d, cfg, pct, hold, RampFactor(cfg, hold))
  {
    var ramp, span := RampPart(d, cfg, pct, hold);
    HalfOfRamp(d.sent(pct, hold), ramp, span, hold, RampNanos(cfg), RampFactor(cfg, hold));
  }

  lemma HalfOfRamp(held: nat, ramp: nat, span: int, hold: int, total: real, k: real)
    requires hold > 0 && k == 1.0 + total / (2.0 * hold as real)
    requires 2 * (ramp * hold) <= held * span && span as real <= total
    ensures (ramp + held) as real <= k * held as real
  {
    var h := hold as real;
    assert (held * span) as real == held as real * span as real;
    assert (2 * (ramp * hold)) as real == 2.0 * (ramp as real * h);
    assert held as real * span as real <= held as real * total;
    var q := total / (2.0 * h);
    assert q * (2.0 * h) == total;
    assert ramp as real * (2.0 * h) <= (q * held as real) * (2.0 * h);
    assert ramp as real <= q * held as real;
  }

  // ----- the default configuration

  /** A generator that sends in proportion to rate and time; from 55% on 2.04% more is refused by full queues. */
  function Saturating(): Dut {
    var sent: Flow := (rate, t) => if rate <= 0.0 || t <= 0 then 0 else (rate * t as real).Floor;
    Dut(sent, (rate, t) => 0, (rate, t) => if rate < 55.0 then 0 else sent(rate, t) * 204 / 10000, (rate, t) => 0)
  }

  lemma SaturatingSends(i: int, t: int)
    requires 1 <= i <= 10 && t > 0
    ensures Saturating().sent((5 * i) as real, t) == 5 * (i * t) && Saturating().refused((5 * i) as real, t) == 0
  {
    assert (5 * i) as real * t as real == (5 * (i * t)) as real;
  }

  lemma {:induction false} SaturatingRamp(t: int, rate: int -> real, i: int)
    requires 0 < t && 1 <= i <= 11 && forall j :: 1 <= j < 11 ==> rate(j) == (5 * j) as real
    ensures RampSum(Saturating().sent, t, rate, i, 11) == 5 * (Triangle(i) * t)
    ensures RampSum(Saturating().refused, t, rate, i, 11) == 0
    decreases 11 - i
  {
    if i < 11 {
      SaturatingSends(i, t);
      SaturatingRamp(t, rate, i + 1);
      assert (i + Triangle(i + 1)) * t == i * t + Triangle(i + 1) * t;
    }
  }

  /** i up to 10, summed. */
  function Triangle(i: int): int
    decreases 11 - i
  {
    if i > 10 then 0 else i + Triangle(i + 1)
  }

  lemma SaturatingHold()
    ensures Saturating().sent(55.0, 20_000_000_000) == 1_100_000_000_000
    ensures Saturating().refused(55.0, 20_000_000_000) == 22_440_000_000
  {
  }

  lemma SaturatingIsInProportion(cfg: Config)
    requires cfg.rampUpTime == 1.0
    ensures InProportion(Saturating(), cfg, 55.0, 20_000_000_000)
  {
    var t, rate, hold := RampInterval(1.0), RampRate(55.0, 11), 20_000_000_000;
    assert RampSteps(1.0) == 11 && t == 90_909_090;
    SaturatingHold();
    forall j | 1 <= j < 11 ensures StepShare(Saturating(), 55.0, hold, rate(j), t, j, 11) {
      SaturatingSends(j, t);
      assert rate(j) == (5 * j) as real;
    }
  }

  /** With the default ramp, hold and limits a run at 55% passes on such a generator, though over the hold it is beyond
      the queue-full limit. */
  lemma DefaultRampDilutes(rig: Rig, h: History)
    requires rig.server == ServerOf(Saturating()) && rig.ports != []
    requires rig.cfg.rampUpTime == 1.0 && rig.cfg.limits == Limits(0.0, 2.0)
    ensures var r := PerfRun(rig, h, 55.0, 20_000_000_000).outcome; r.Some? && r.value.pass
    ensures !Within(Saturating(), rig.cfg.limits, 55.0, 20_000_000_000)
    ensures InProportion(Saturating(), rig.cfg, 55.0, 20_000_000_000)
  {
    var d, hold, t := Saturating(), 20_000_000_000, RampInterval(1.0);
    assert RampSteps(1.0) == 11 && t == 90_909_090;
    SaturatingHold();
    SaturatingRamp(t, RampRate(55.0, 11), 1);
    assert Triangle(8) == 27 && Triangle(5) == 45 && Triangle(1) == 55;
    SessionClean(d.lost, rig.cfg, 55.0, hold);
    SessionClean(d.errors, rig.cfg, 55.0, hold);
    assert LosesOnlySent(d);
    PerfRunMeasures(d, rig, h, 55.0, hold);
    SaturatingIsInProportion(rig.cfg);
  }
}
