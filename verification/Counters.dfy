/** Flow-group counters (pkg/stats/pgid.go) and the verdict computed from them (Engine.evaluate). */
module Counters {
  import opened Prelude

  datatype PgidCounters = PgidCounters(txPkts: uint64, rxPkts: uint64, txBytes: uint64, rxBytes: uint64)

  datatype Snapshot = Snapshot(flow: map<int64, PgidCounters>, rxErr: uint64)

  /** The part of the NDR configuration that decides a verdict, in percent. */
  datatype Limits = Limits(pdr: real, qfullResolution: real)

  datatype RunResult = RunResult(percentage: real, txPkts: uint64, rxPkts: uint64, drop: uint64,
                                 dropPct: real, queueFull: uint64, qfullPct: real, rxErr: uint64, pass: bool)

  /** Go's zero RunResult{}. */
  const ZERO_RUN := RunResult(0.0, 0, 0, 0, 0.0, 0, 0.0, 0, false)

  // ----- sums over a finite set, in no particular order

  ghost function Sum(keys: set<int64>, f: int64 -> int): int {
    if keys == {} then 0 else
      var k :| k in keys;
      f(k) + Sum(keys - {k}, f)
  }

  /** The sum does not depend on which key is taken first. */
  lemma {:induction false} SumRemove(keys: set<int64>, f: int64 -> int, k: int64)
    requires k in keys
    ensures Sum(keys, f) == f(k) + Sum(keys - {k}, f)
    decreases |keys|
  {
    var first :| first in keys && Sum(keys, f) == f(first) + Sum(keys - {first}, f);
    if first != k {
      SumRemove(keys - {first}, f, k);
      SumRemove(keys - {k}, f, first);
      assert keys - {first} - {k} == keys - {k} - {first};
    }
  }

  lemma {:induction false} SumCongruent(keys: set<int64>, f: int64 -> int, g: int64 -> int)
    requires forall k :: k in keys ==> f(k) == g(k)
    ensures Sum(keys, f) == Sum(keys, g)
    decreases |keys|
  {
    if keys != {} {
      var k :| k in keys;
      SumRemove(keys, f, k);
      SumRemove(keys, g, k);
      SumCongruent(keys - {k}, f, g);
    }
  }

  lemma {:induction false} SumPlus(keys: set<int64>, f: int64 -> int, g: int64 -> int)
    ensures Sum(keys, (k: int64) => f(k) + g(k)) == Sum(keys, f) + Sum(keys, g)
    decreases |keys|
  {
    if keys != {} {
      var k :| k in keys;
      SumRemove(keys, f, k);
      SumRemove(keys, g, k);
      SumRemove(keys, (k: int64) => f(k) + g(k), k);
      SumPlus(keys - {k}, f, g);
    }
  }

  lemma {:induction false} SumMonotone(keys: set<int64>, f: int64 -> int, g: int64 -> int)
    requires forall k :: k in keys ==> f(k) <= g(k)
    ensures Sum(keys, f) <= Sum(keys, g)
    decreases |keys|
  {
    if keys != {} {
      var k :| k in keys;
      SumRemove(keys, f, k);
      SumRemove(keys, g, k);
      SumMonotone(keys - {k}, f, g);
    }
  }

  /** Reducing every term modulo 2^64 first does not change the sum modulo 2^64. */
  lemma {:induction false} SumModulo(keys: set<int64>, f: int64 -> int)
    ensures Sum(keys, (k: int64) => f(k) % TWO_64) % TWO_64 == Sum(keys, f) % TWO_64
    decreases |keys|
  {
    if keys != {} {
      var k :| k in keys;
      SumRemove(keys, f, k);
      SumRemove(keys, (k: int64) => f(k) % TWO_64, k);
      SumModulo(keys - {k}, f);
      WrapBoth(f(k), Sum(keys - {k}, f), Sum(keys - {k}, (k: int64) => f(k) % TWO_64));
    }
  }

  lemma {:induction false} SumAbsent(keys: set<int64>, more: set<int64>, f: int64 -> int)
    requires keys <= more
    requires forall k :: k in more - keys ==> f(k) == 0
    ensures Sum(more, f) == Sum(keys, f)
    decreases |more|
  {
    if more - keys != {} {
      var k :| k in more - keys;
      SumRemove(more, f, k);
      SumAbsent(keys, more - {k}, f);
    } else {
      assert more == keys;
    }
  }

  lemma WrapBoth(x: int, a: int, b: int)
    requires a % TWO_64 == b % TWO_64
    ensures (x % TWO_64 + b) % TWO_64 == (x + a) % TWO_64
  {
  }

  lemma WrapDifference(a: int, b: int)
    requires 0 <= b < TWO_64
    ensures ((a + b) % TWO_64 - a % TWO_64) % TWO_64 == b
  {
  }

  lemma Accumulate(t: uint64, left: set<int64>, f: int64 -> int, k: int64)
    requires k in left && 0 <= f(k) < TWO_64
    ensures (Add64(t, f(k)) + Sum(left - {k}, f)) % TWO_64 == (t + Sum(left, f)) % TWO_64
  {
    SumRemove(left, f, k);
  }

  // ----- the reductions of pgid.go

  ghost function TxOf(s: Snapshot): int64 -> int {
    (k: int64) => if k in s.flow then s.flow[k].txPkts else 0
  }

  ghost function RxOf(s: Snapshot): int64 -> int {
    (k: int64) => if k in s.flow then s.flow[k].rxPkts else 0
  }

  ghost function TotalTx(s: Snapshot): uint64 {
    Sum(s.flow.Keys, TxOf(s)) % TWO_64
  }

  ghost function TotalRx(s: Snapshot): uint64 {
    Sum(s.flow.Keys, RxOf(s)) % TWO_64
  }

  /** Ranges over the map in an arbitrary order; the result is the same for every order. */
  method SumTx(s: Snapshot) returns (t: uint64)
    ensures t == TotalTx(s)
  {
    t := 0;
    var left := s.flow.Keys;
    while left != {}
      invariant left <= s.flow.Keys
      invariant (t + Sum(left, TxOf(s))) % TWO_64 == TotalTx(s)
      decreases left
    {
      var k :| k in left;
      Accumulate(t, left, TxOf(s), k);
      t := Add64(t, s.flow[k].txPkts);
      left := left - {k};
    }
  }

  method SumRx(s: Snapshot) returns (t: uint64)
    ensures t == TotalRx(s)
  {
    t := 0;
    var left := s.flow.Keys;
    while left != {}
      invariant left <= s.flow.Keys
      invariant (t + Sum(left, RxOf(s))) % TWO_64 == TotalRx(s)
      decreases left
    {
      var k :| k in left;
      Accumulate(t, left, RxOf(s), k);
      t := Add64(t, s.flow[k].rxPkts);
      left := left - {k};
    }
  }

  ghost function Shortfall(tx: int, rx: int): int {
    if rx > tx then 0 else tx - rx
  }

  /** Snapshot drop; clamped at zero when more was received than sent. */
  method Drop(s: Snapshot) returns (d: uint64)
    ensures d == Shortfall(TotalTx(s), TotalRx(s))
  {
    var tx := SumTx(s);
    var rx := SumRx(s);
    d := if rx > tx then 0 else tx - rx;
  }

  /** The drops of the groups, summed, and what the groups received beyond what they sent. */
  ghost function GroupDrops(s: Snapshot): int {
    Sum(s.flow.Keys, (k: int64) => Shortfall(TxOf(s)(k), RxOf(s)(k)))
  }

  ghost function GroupSurplus(s: Snapshot): int {
    Sum(s.flow.Keys, (k: int64) => Shortfall(RxOf(s)(k), TxOf(s)(k)))
  }

  /** How many times a total went round the 64-bit counter. */
  ghost function Turns(total: int): int {
    total / TWO_64
  }

  /** The drop of a snapshot stays within the drops of its groups exactly when it is clamped to zero, or the turns the
      received total made beyond the transmitted one are covered by what groups received in surplus. */
  lemma {:induction false} AggregateDropBoundedIff(s: Snapshot)
    ensures Shortfall(TotalTx(s), TotalRx(s)) <= GroupDrops(s) <==>
            || TotalTx(s) <= TotalRx(s)
            || (Turns(Sum(s.flow.Keys, RxOf(s))) - Turns(Sum(s.flow.Keys, TxOf(s)))) * TWO_64 <= GroupSurplus(s)
  {
    var keys, tx, rx := s.flow.Keys, TxOf(s), RxOf(s);
    DropsBalance(keys, tx, rx);
    DropsAddUp(keys, tx, rx);
    WholeTurns(Sum(keys, tx), Sum(keys, rx));
  }

  /** In particular when the received total did not wrap more often than the transmitted one. */
  lemma AggregateDropBounded(s: Snapshot)
    requires Turns(Sum(s.flow.Keys, RxOf(s))) <= Turns(Sum(s.flow.Keys, TxOf(s)))
    ensures 0 <= Shortfall(TotalTx(s), TotalRx(s)) <= GroupDrops(s)
  {
    DropsAddUp(s.flow.Keys, RxOf(s), TxOf(s));
    AggregateDropBoundedIff(s);
  }

  lemma WholeTurns(a: int, b: int)
    ensures a % TWO_64 - b % TWO_64 == a - b + (Turns(b) - Turns(a)) * TWO_64
  {
  }

  /** Group by group, what was dropped and received is what was sent and received in surplus. */
  lemma {:induction false} DropsBalance(keys: set<int64>, tx: int64 -> int, rx: int64 -> int)
    ensures Sum(keys, (k: int64) => Shortfall(tx(k), rx(k))) + Sum(keys, rx)
         == Sum(keys, (k: int64) => Shortfall(rx(k), tx(k))) + Sum(keys, tx)
  {
    var short, surplus := (k: int64) => Shortfall(tx(k), rx(k)), (k: int64) => Shortfall(rx(k), tx(k));
    SumPlus(keys, short, rx);
    SumPlus(keys, surplus, tx);
    SumCongruent(keys, (k: int64) => short(k) + rx(k), (k: int64) => surplus(k) + tx(k));
  }

  /** A received total that wraps once more can break it: here no group lost anything and the snapshot reports almost
      2^64 packets. */
  lemma AggregateDropCanExceed()
    ensures var full := PgidCounters(TWO_64 - 1, TWO_64 - 1, 0, 0);
            var s := Snapshot(map[0 := full, 1 := PgidCounters(0, 1, 0, 0)], 0);
            && (forall k :: k in s.flow ==> Shortfall(s.flow[k].txPkts, s.flow[k].rxPkts) == 0)
            && Shortfall(TotalTx(s), TotalRx(s)) == TWO_64 - 1
  {
    var s := Snapshot(map[0 := PgidCounters(TWO_64 - 1, TWO_64 - 1, 0, 0), 1 := PgidCounters(0, 1, 0, 0)], 0);
    TwoGroups(s, TxOf(s));
    TwoGroups(s, RxOf(s));
  }

  lemma TwoGroups(s: Snapshot, f: int64 -> int)
    requires s.flow.Keys == {0, 1}
    ensures Sum(s.flow.Keys, f) == f(0) + f(1)
  {
    var keys := s.flow.Keys;
    SumRemove(keys, f, 0);
    SumRemove(keys - {0}, f, 1);
    assert keys - {0} - {1} == {};
  }

  lemma {:induction false} DropsAddUp(keys: set<int64>, tx: int64 -> int, rx: int64 -> int)
    ensures 0 <= Shortfall(Sum(keys, tx), Sum(keys, rx)) <= Sum(keys, (k: int64) => Shortfall(tx(k), rx(k)))
  {
    var short := (k: int64) => Shortfall(tx(k), rx(k));
    SumMonotone(keys, (k: int64) => 0, short);
    SumZero(keys);
    SumPlus(keys, short, rx);
    SumMonotone(keys, tx, (k: int64) => short(k) + rx(k));
  }

  lemma {:induction false} SumZero(keys: set<int64>)
    ensures Sum(keys, (k: int64) => 0) == 0
    decreases |keys|
  {
    if keys != {} {
      var k :| k in keys;
      SumRemove(keys, (k: int64) => 0, k);
      SumZero(keys - {k});
    }
  }

  // ----- the verdict of Engine.evaluate

  function Judge(limits: Limits, pct: real, tx: uint64, rx: uint64, qf: uint64, rxErr: uint64): RunResult {
    var drop := if tx > rx then tx - rx else 0;
    var dropPct := if tx > 0 then drop as real / tx as real * 100.0 else 0.0;
    var qfullPct := if tx > 0 then qf as real / tx as real * 100.0 else 0.0;
    RunResult(pct, tx, rx, drop, dropPct, qf, qfullPct, rxErr,
              dropPct <= limits.pdr && qfullPct <= limits.qfullResolution && rxErr == 0)
  }

  ghost function Evaluated(limits: Limits, pct: real, base: Snapshot, final: Snapshot,
                           baseQF: uint64, finalQF: uint64): RunResult
  {
    Judge(limits, pct, Sub64(TotalTx(final), TotalTx(base)), Sub64(TotalRx(final), TotalRx(base)),
          Sub64(finalQF, baseQF), Sub64(final.rxErr, base.rxErr))
  }

  method Evaluate(limits: Limits, pct: real, base: Snapshot, final: Snapshot, baseQF: uint64, finalQF: uint64)
    returns (r: RunResult)
    ensures r == Evaluated(limits, pct, base, final, baseQF, finalQF)
  {
    var finalTx := SumTx(final);
    var baseTx := SumTx(base);
    var finalRx := SumRx(final);
    var baseRx := SumRx(base);
    r := Judge(limits, pct, Sub64(finalTx, baseTx), Sub64(finalRx, baseRx),
               Sub64(finalQF, baseQF), Sub64(final.rxErr, base.rxErr));
  }

  /** `final` is `base` after each group really sent or received `inc(k)` more, in counters that wrap.
      A group missing from the baseline started at zero. */
  ghost predicate Counted(baseKeys: set<int64>, finalKeys: set<int64>, base: int64 -> int, final: int64 -> int,
                          inc: int64 -> int)
  {
    && baseKeys <= finalKeys
    && (forall k :: k !in baseKeys ==> base(k) == 0)
    && (forall k :: k in finalKeys ==> inc(k) >= 0 && final(k) == (base(k) + inc(k)) % TWO_64)
  }

  /** The difference of two wrapped sums is the true number of packets, however many counters wrapped. */
  lemma {:induction false} DeltaIsTrueIncrement(baseKeys: set<int64>, finalKeys: set<int64>,
                                                base: int64 -> int, final: int64 -> int, inc: int64 -> int)
    requires Counted(baseKeys, finalKeys, base, final, inc)
    requires Sum(finalKeys, inc) < TWO_64
    ensures Sub64(Sum(finalKeys, final) % TWO_64, Sum(baseKeys, base) % TWO_64) == Sum(finalKeys, inc)
  {
    var grown := (k: int64) => base(k) + inc(k);
    SumCongruent(finalKeys, final, (k: int64) => grown(k) % TWO_64);
    SumModulo(finalKeys, grown);
    SumPlus(finalKeys, base, inc);
    SumAbsent(baseKeys, finalKeys, base);
    SumMonotone(finalKeys, (k: int64) => 0, inc);
    SumZero(finalKeys);
    WrapDifference(Sum(baseKeys, base), Sum(finalKeys, inc));
  }

  /** A run's figures are the real traffic between its two readings. */
  lemma {:induction false} EvaluatedCountsRealTraffic(limits: Limits, pct: real, base: Snapshot, final: Snapshot,
                                                      baseQF: uint64, finalQF: uint64,
                                                      sent: int64 -> int, got: int64 -> int)
    requires Counted(base.flow.Keys, final.flow.Keys, TxOf(base), TxOf(final), sent)
    requires Counted(base.flow.Keys, final.flow.Keys, RxOf(base), RxOf(final), got)
    requires Sum(final.flow.Keys, sent) < TWO_64 && Sum(final.flow.Keys, got) < TWO_64
    ensures var r := Evaluated(limits, pct, base, final, baseQF, finalQF);
            && r.txPkts == Sum(final.flow.Keys, sent)
            && r.rxPkts == Sum(final.flow.Keys, got)
            && r.drop == Shortfall(Sum(final.flow.Keys, sent), Sum(final.flow.Keys, got))
            && r.drop <= Sum(final.flow.Keys, (k: int64) => Shortfall(sent(k), got(k)))
            && 0.0 <= r.dropPct <= 100.0
            && PercentagesOf(r)
  {
    var keys := final.flow.Keys;
    DeltaIsTrueIncrement(base.flow.Keys, keys, TxOf(base), TxOf(final), sent);
    DeltaIsTrueIncrement(base.flow.Keys, keys, RxOf(base), RxOf(final), got);
    DropsAddUp(keys, sent, got);
    var r := Evaluated(limits, pct, base, final, baseQF, finalQF);
    DropPercentBounded(limits, pct, r.txPkts, r.rxPkts, r.queueFull, r.rxErr);
    JudgedPercentages(limits, pct, r.txPkts, r.rxPkts, r.queueFull, r.rxErr);
  }

  /** The reported percentages are those of the reported packets, and zero if none was sent. */
  predicate PercentagesOf(r: RunResult) {
    if r.txPkts == 0 then r.dropPct == 0.0 && r.qfullPct == 0.0
    else && r.dropPct * r.txPkts as real == 100.0 * r.drop as real
         && r.qfullPct * r.txPkts as real == 100.0 * r.queueFull as real
  }

  lemma JudgedPercentages(limits: Limits, pct: real, tx: uint64, rx: uint64, qf: uint64, rxErr: uint64)
    ensures PercentagesOf(Judge(limits, pct, tx, rx, qf, rxErr))
  {
    if tx > 0 {
      PercentOf(Judge(limits, pct, tx, rx, qf, rxErr).drop as real, tx as real);
      PercentOf(qf as real, tx as real);
    }
  }

  lemma PercentOf(part: real, whole: real)
    requires whole > 0.0
    ensures part / whole * 100.0 * whole == 100.0 * part
  {
    var q := part / whole;
    assert q * whole == part;
  }

  lemma DropPercentBounded(limits: Limits, pct: real, tx: uint64, rx: uint64, qf: uint64, rxErr: uint64)
    ensures 0.0 <= Judge(limits, pct, tx, rx, qf, rxErr).dropPct <= 100.0
  {
    if tx > 0 {
      var drop := if tx > rx then tx - rx else 0;
      FractionBounded(drop as real, tx as real);
    }
  }

  lemma FractionBounded(a: real, b: real)
    requires 0.0 <= a <= b && 0.0 < b
    ensures 0.0 <= a / b <= 1.0
  {
  }

  /** Exactly when a run passes: with no transmitted packet the traffic is not looked at, only the signs of the
      limits. */
  lemma PassExactly(limits: Limits, pct: real, tx: uint64, rx: uint64, qf: uint64, rxErr: uint64)
    ensures Judge(limits, pct, tx, rx, qf, rxErr).pass <==>
            && rxErr == 0
            && if tx == 0 then limits.pdr >= 0.0 && limits.qfullResolution >= 0.0
               else && 100.0 * Shortfall(tx, rx) as real <= limits.pdr * tx as real
                    && 100.0 * qf as real <= limits.qfullResolution * tx as real
  {
    if tx > 0 {
      PercentLimit(Shortfall(tx, rx) as real, tx as real, limits.pdr);
      PercentLimit(qf as real, tx as real, limits.qfullResolution);
    }
  }

  lemma PercentLimit(part: real, whole: real, limit: real)
    requires whole > 0.0
    ensures part / whole * 100.0 <= limit <==> 100.0 * part <= limit * whole
  {
    var q := part / whole;
    assert part == q * whole;
    if q * 100.0 <= limit {
      Stretch(q * 100.0, limit, whole);
    } else {
      Stretch(limit, q * 100.0, whole);
      assert (q * 100.0 - limit) * whole > 0.0;
    }
  }

  /** A generator that sends nothing but overflows still passes: the health gate is off when nothing was sent, however
      many packets its queues refused. */
  lemma StarvedGeneratorPasses(limits: Limits, pct: real, rx: uint64, qf: uint64)
    ensures Judge(limits, pct, 0, rx, qf, 0).pass <==> limits.pdr >= 0.0 && limits.qfullResolution >= 0.0
  {
    PassExactly(limits, pct, 0, rx, qf, 0);
  }
}
