/** A device under test behind a server whose counters run, modulo 2^64, while traffic flows: over each wait they move
    by what the device does at the rate in force. What a measurement reports is then a sum over its session. */
module Sessions {
  import opened Prelude
  import opened Counters
  import opened Traffic
  import opened Search

  /** What happens at a steady rate over a number of nanoseconds. */
  type Flow = (real, int) -> nat

  /** Packets sent, and of those the lost ones; packets refused by full queues; packets received in error. A packet
      counts for the wait it was sent in: what the drain delivers was sent before. */
  datatype Dut = Dut(sent: Flow, lost: Flow, refused: Flow, errors: Flow)

  /** The rate the ports were last told to send at, which is none after a stop. */
  function InForce(h: History): real {
    if h == [] then 0.0 else
      match h[|h| - 1]
      case Start(_, rate) => rate
      case Update(_, rate) => rate
      case Stop(_) => 0.0
      case _ => InForce(h[..|h| - 1])
  }

  /** What has happened in all waits so far. */
  function Tally(f: Flow, h: History): nat {
    if h == [] then 0 else
      var before, op := h[..|h| - 1], h[|h| - 1];
      Tally(f, before) + if op.Sleep? then f(InForce(before), op.nanos) else 0
  }

  function Received(d: Dut): Flow {
    (rate, t) => if d.lost(rate, t) > d.sent(rate, t) then 0 else d.sent(rate, t) - d.lost(rate, t)
  }

  /** No operation fails; the device's flow is group 0. */
  function ServerOf(d: Dut): Server {
    Server(h => false,
           h => Snapshot(map[0 := PgidCounters(Tally(d.sent, h) % TWO_64, Tally(Received(d), h) % TWO_64, 0, 0)],
                         Tally(d.errors, h) % TWO_64),
           h => Tally(d.refused, h) % TWO_64)
  }

  // ----- what a session adds

  /** What the waits of a ramp add from step i on; the last step is not waited for. */
  function RampSum(f: Flow, interval: int, rate: int -> real, i: int, steps: int): nat
    decreases steps - i
  {
    if i >= steps then 0 else f(rate(i), interval) + RampSum(f, interval, rate, i + 1, steps)
  }

  /** Every ramp step but the last for an interval, the target for the hold, and nothing driven for the drain. */
  function SessionSum(f: Flow, cfg: Config, pct: real, hold: int): nat {
    var steps := RampSteps(cfg.rampUpTime);
    RampSum(f, RampInterval(cfg.rampUpTime), RampRate(pct, steps), 1, steps) + f(pct, hold) + f(0.0, cfg.drainNanos)
  }

  lemma OneMore(f: Flow, h: History, op: Op)
    ensures Tally(f, h + [op]) == Tally(f, h) + if op.Sleep? then f(InForce(h), op.nanos) else 0
    ensures op.Sleep? || op.ReadFinal? || op.ReadBaseline? ==> InForce(h + [op]) == InForce(h)
    ensures op.Stop? ==> InForce(h + [op]) == 0.0
    ensures op.Start? || op.Update? ==> InForce(h + [op]) == op.rate
  {
    assert (h + [op])[..|h|] == h;
  }

  /** An operation that puts a rate in force. */
  predicate Commands(op: Op, rate: real) {
    match op
    case Start(_, r) => r == rate
    case Update(_, r) => r == rate
    case Stop(_) => rate == 0.0
    case _ => false
  }

  lemma {:induction false} CommandsApply(f: Flow, h: History, ops: seq<Op>, rate: real)
    requires ops != [] && forall op :: op in ops ==> Commands(op, rate)
    ensures Tally(f, h + ops) == Tally(f, h) && InForce(h + ops) == rate
    decreases |ops|
  {
    var n := |ops| - 1;
    assert Commands(ops[n], rate);
    if n > 0 {
      assert forall op :: op in ops[..n] ==> op in ops;
      CommandsApply(f, h, ops[..n], rate);
    }
    OneMore(f, h + ops[..n], ops[n]);
    assert h + ops[..n] + [ops[n]] == h + ops;
    assert n == 0 ==> h + ops[..n] == h;
  }

  lemma {:induction false} PortsAreCommanded(ports: seq<int>, rate: real)
    requires ports != []
    ensures Starts(ports, rate) != [] && forall op :: op in Starts(ports, rate) ==> Commands(op, rate)
    ensures Updates(ports, rate) != [] && forall op :: op in Updates(ports, rate) ==> Commands(op, rate)
    ensures Stops(ports) != [] && forall op :: op in Stops(ports) ==> Commands(op, 0.0)
  {
    if |ports| > 1 { PortsAreCommanded(ports[1..], rate); }
  }

  lemma RungOrder(h: History, a: seq<Op>, b: seq<Op>, c: seq<Op>)
    ensures h + a + b + c == h + (a + b + c)
  {
  }

  lemma {:induction false} TailCounts(f: Flow, h: History, ports: seq<int>, steps: int, interval: int,
                                      rate: int -> real, i: int)
    requires ports != [] && i <= steps + 1 && InForce(h) == rate(i - 1)
    ensures var t := RampTail(ports, steps, interval, rate, i);
            && Tally(f, h + t) == Tally(f, h) + RampSum(f, interval, rate, i - 1, steps)
            && InForce(h + t) == rate(steps)
    decreases steps + 1 - i
  {
    var t := RampTail(ports, steps, interval, rate, i);
    if i > steps {
      assert h + t == h;
    } else {
      var slept := h + [Sleep(interval)];
      var ups, rest := Updates(ports, rate(i)), RampTail(ports, steps, interval, rate, i + 1);
      OneMore(f, h, Sleep(interval));
      PortsAreCommanded(ports, rate(i));
      CommandsApply(f, slept, ups, rate(i));
      TailCounts(f, slept + ups, ports, steps, interval, rate, i + 1);
      RungOrder(h, [Sleep(interval)], ups, rest);
    }
  }

  lemma RampOrder(h: History, a: seq<Op>, b: seq<Op>)
    ensures h + a + b == h + (a + b)
  {
  }

  lemma RampCounts(f: Flow, h: History, ports: seq<int>, rampUpTime: real, pct: real)
    requires ports != [] && pct > 0.0
    ensures var steps, after := RampSteps(rampUpTime), h + RampPlan(ports, rampUpTime, pct);
            && Tally(f, after) == Tally(f, h) + RampSum(f, RampInterval(rampUpTime), RampRate(pct, steps), 1, steps)
            && InForce(after) == pct
  {
    var steps, interval := RampSteps(rampUpTime), RampInterval(rampUpTime);
    var starts := Starts(ports, pct / steps as real);
    RampRateSteps(pct, steps);
    PortsAreCommanded(ports, pct / steps as real);
    CommandsApply(f, h, starts, pct / steps as real);
    TailCounts(f, h + starts, ports, steps, interval, RampRate(pct, steps), 2);
    RampOrder(h, starts, RampTail(ports, steps, interval, RampRate(pct, steps), 2));
  }

  /** From the end of the ramp on: the hold at the rate in force, and the drain with nothing driven. */
  lemma HoldCounts(f: Flow, h: History, ports: seq<int>, hold: int, drain: int)
    requires ports != []
    ensures Tally(f, h + [Sleep(hold)] + Stops(ports) + [Sleep(drain)] + [ReadFinal])
         == Tally(f, h) + f(InForce(h), hold) + f(0.0, drain)
  {
    var held := h + [Sleep(hold)];
    OneMore(f, h, Sleep(hold));
    PortsAreCommanded(ports, 0.0);
    CommandsApply(f, held, Stops(ports), 0.0);
    OneMore(f, held + Stops(ports), Sleep(drain));
    OneMore(f, held + Stops(ports) + [Sleep(drain)], ReadFinal);
  }

  lemma SessionOrder(h: History, rig: Rig, pct: real, hold: int)
    ensures h + SessionPlan(rig, pct, hold)
         == h + RampPlan(rig.ports, rig.cfg.rampUpTime, pct) + [Sleep(hold)] + Stops(rig.ports)
            + [Sleep(rig.cfg.drainNanos)] + [ReadFinal]
  {
    var ramp, drain := RampPlan(rig.ports, rig.cfg.rampUpTime, pct), Sleep(rig.cfg.drainNanos);
    assert [drain, ReadFinal] == [drain] + [ReadFinal];
    Reassociate(h, ramp, [Sleep(hold)], Stops(rig.ports), [drain]);
  }

  lemma Reassociate(h: History, a: seq<Op>, b: seq<Op>, c: seq<Op>, d: seq<Op>)
    ensures h + (a + b + c + (d + [ReadFinal])) == h + a + b + c + d + [ReadFinal]
  {
  }

  /** A session adds what the device does on the ramp, over the hold and during the drain, to whatever was there. */
  lemma SessionCounts(f: Flow, rig: Rig, h: History, pct: real, hold: int)
    requires rig.ports != [] && pct > 0.0
    ensures Tally(f, h + SessionPlan(rig, pct, hold)) == Tally(f, h) + SessionSum(f, rig.cfg, pct, hold)
  {
    SessionOrder(h, rig, pct, hold);
    RampCounts(f, h, rig.ports, rig.cfg.rampUpTime, pct);
    HoldCounts(f, h + RampPlan(rig.ports, rig.cfg.rampUpTime, pct), rig.ports, hold, rig.cfg.drainNanos);
  }

  // ----- what a measurement reports

  /** No more is lost than sent, and no counter moves by 2^64 within the session. */
  ghost predicate Countable(d: Dut, cfg: Config, pct: real, hold: int) {
    && LosesOnlySent(d)
    && SessionSum(d.sent, cfg, pct, hold) < TWO_64
    && SessionSum(d.refused, cfg, pct, hold) < TWO_64
    && SessionSum(d.errors, cfg, pct, hold) < TWO_64
  }

  predicate LossAt(d: Dut, rate: real, t: int) {
    d.lost(rate, t) <= d.sent(rate, t)
  }

  ghost predicate LosesOnlySent(d: Dut) {
    forall rate, t :: LossAt(d, rate, t)
  }

  lemma {:induction false} RampSplits(d: Dut, interval: int, rate: int -> real, i: int, steps: int)
    requires LosesOnlySent(d)
    ensures RampSum(Received(d), interval, rate, i, steps) + RampSum(d.lost, interval, rate, i, steps)
         == RampSum(d.sent, interval, rate, i, steps)
    decreases steps - i
  {
    if i < steps {
      assert LossAt(d, rate(i), interval);
      RampSplits(d, interval, rate, i + 1, steps);
    }
  }

  /** What is sent is received or lost. */
  lemma SessionSplits(d: Dut, cfg: Config, pct: real, hold: int)
    requires LosesOnlySent(d)
    ensures SessionSum(Received(d), cfg, pct, hold) + SessionSum(d.lost, cfg, pct, hold)
         == SessionSum(d.sent, cfg, pct, hold)
  {
    var steps := RampSteps(cfg.rampUpTime);
    RampSplits(d, RampInterval(cfg.rampUpTime), RampRate(pct, steps), 1, steps);
    assert LossAt(d, pct, hold) && LossAt(d, 0.0, cfg.drainNanos);
  }

  lemma NothingFails(d: Dut, h: History, plan: seq<Op>)
    ensures Execute(ServerOf(d), h, plan) == Execution(h + plan, true)
  {
    var n := ExecutePrefix(ServerOf(d), h, plan);
    assert Clear(ServerOf(d), h, plan);
    assert plan[..|plan|] == plan;
  }

  lemma OneGroup(c: PgidCounters, rxErr: uint64)
    ensures TotalTx(Snapshot(map[0 := c], rxErr)) == c.txPkts && TotalRx(Snapshot(map[0 := c], rxErr)) == c.rxPkts
  {
    var s := Snapshot(map[0 := c], rxErr);
    SumRemove(s.flow.Keys, TxOf(s), 0);
    SumRemove(s.flow.Keys, RxOf(s), 0);
    assert s.flow.Keys - {0} == {};
  }

  lemma Totals(d: Dut, h: History)
    ensures TotalTx(ServerOf(d).counters(h)) == Tally(d.sent, h) % TWO_64
    ensures TotalRx(ServerOf(d).counters(h)) == Tally(Received(d), h) % TWO_64
  {
    OneGroup(ServerOf(d).counters(h).flow[0], ServerOf(d).counters(h).rxErr);
  }

  /** Two readings of a counter around a session differ by the session's sum. */
  lemma Delta(f: Flow, rig: Rig, h: History, pct: real, hold: int)
    requires rig.ports != [] && pct > 0.0 && SessionSum(f, rig.cfg, pct, hold) < TWO_64
    ensures Sub64(Tally(f, h + SessionPlan(rig, pct, hold)) % TWO_64, Tally(f, h) % TWO_64)
         == SessionSum(f, rig.cfg, pct, hold)
  {
    SessionCounts(f, rig, h, pct, hold);
    WrapDifference(Tally(f, h), SessionSum(f, rig.cfg, pct, hold));
  }

  lemma ReadingsDiffer(d: Dut, rig: Rig, h: History, pct: real, hold: int)
    requires rig.ports != [] && pct > 0.0 && Countable(d, rig.cfg, pct, hold)
    ensures SessionSum(Received(d), rig.cfg, pct, hold) < TWO_64
    ensures var server, h' := ServerOf(d), h + SessionPlan(rig, pct, hold);
            Evaluated(rig.cfg.limits, pct, server.counters(h), server.counters(h'),
                      server.queueFull(h), server.queueFull(h'))
            == Judge(rig.cfg.limits, pct, SessionSum(d.sent, rig.cfg, pct, hold),
                     SessionSum(Received(d), rig.cfg, pct, hold), SessionSum(d.refused, rig.cfg, pct, hold),
                     SessionSum(d.errors, rig.cfg, pct, hold))
  {
    SessionSplits(d, rig.cfg, pct, hold);
    Totals(d, h);
    Totals(d, h + SessionPlan(rig, pct, hold));
    Delta(d.sent, rig, h, pct, hold);
    Delta(Received(d), rig, h, pct, hold);
    Delta(d.refused, rig, h, pct, hold);
    Delta(d.errors, rig, h, pct, hold);
  }

  /** Whether losses, refusals and errors are within the limits of what was sent; if that was nothing, only errors and
      the signs of the limits are looked at. */
  ghost predicate Verdict(limits: Limits, sent: nat, lost: nat, refused: nat, errors: nat) {
    && errors == 0
    && if sent == 0 then limits.pdr >= 0.0 && limits.qfullResolution >= 0.0
       else && 100.0 * lost as real <= limits.pdr * sent as real
            && 100.0 * refused as real <= limits.qfullResolution * sent as real
  }

  lemma JudgeIsVerdict(limits: Limits, pct: real, sent: uint64, lost: uint64, refused: uint64, errors: uint64)
    requires lost <= sent
    ensures var r := Judge(limits, pct, sent, sent - lost, refused, errors);
            && r.txPkts == sent && r.drop == lost && r.queueFull == refused && r.rxErr == errors
            && (r.pass <==> Verdict(limits, sent, lost, refused, errors)) && PercentagesOf(r)
  {
    JudgedPercentages(limits, pct, sent, sent - lost, refused, errors);
    PassExactly(limits, pct, sent, sent - lost, refused, errors);
  }

  /** The verdict on what the device did over a session, ramp included. */
  ghost predicate SessionPass(d: Dut, cfg: Config, pct: real, hold: int) {
    Verdict(cfg.limits, SessionSum(d.sent, cfg, pct, hold), SessionSum(d.lost, cfg, pct, hold),
            SessionSum(d.refused, cfg, pct, hold), SessionSum(d.errors, cfg, pct, hold))
  }

  /** A measurement at a positive rate succeeds; what it reports as sent, dropped and refused, the percentages of these
      and the verdict are those of the whole session. */
  lemma PerfRunMeasures(d: Dut, rig: Rig, h: History, pct: real, hold: int)
    requires rig.server == ServerOf(d) && rig.ports != [] && pct > 0.0 && Countable(d, rig.cfg, pct, hold)
    ensures var r := PerfRun(rig, h, pct, hold).outcome;
            && r.Some?
            && r.value.txPkts == SessionSum(d.sent, rig.cfg, pct, hold)
            && r.value.drop == SessionSum(d.lost, rig.cfg, pct, hold)
            && r.value.queueFull == SessionSum(d.refused, rig.cfg, pct, hold)
            && r.value.rxErr == SessionSum(d.errors, rig.cfg, pct, hold)
            && r.value.percentage == pct && PercentagesOf(r.value)
            && (r.value.pass <==> SessionPass(d, rig.cfg, pct, hold))
  {
    RunIsJudged(d, rig, h, pct, hold);
    SessionSplits(d, rig.cfg, pct, hold);
    JudgeIsVerdict(rig.cfg.limits, pct, SessionSum(d.sent, rig.cfg, pct, hold), SessionSum(d.lost, rig.cfg, pct, hold),
                   SessionSum(d.refused, rig.cfg, pct, hold), SessionSum(d.errors, rig.cfg, pct, hold));
  }

  lemma RunIsJudged(d: Dut, rig: Rig, h: History, pct: real, hold: int)
    requires rig.server == ServerOf(d) && rig.ports != [] && pct > 0.0 && Countable(d, rig.cfg, pct, hold)
    ensures SessionSum(Received(d), rig.cfg, pct, hold) < TWO_64
    ensures PerfRun(rig, h, pct, hold).outcome ==
            Some(Judge(rig.cfg.limits, pct, SessionSum(d.sent, rig.cfg, pct, hold),
                       SessionSum(Received(d), rig.cfg, pct, hold), SessionSum(d.refused, rig.cfg, pct, hold),
                       SessionSum(d.errors, rig.cfg, pct, hold)))
  {
    var opening := Stops(rig.ports) + [ReadBaseline];
    NothingFails(d, h, opening);
    NothingFails(d, h + opening, SessionPlan(rig, pct, hold));
    ReadingsDiffer(d, rig, h + opening, pct, hold);
  }
}
