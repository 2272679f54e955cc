/** Replaying a capture as a chain of single-packet streams (pkg/stl/loaders/pcap.go). */
module Pcap {
  import opened Prelude
  import opened Profiles
  import opened Text

  /** A captured packet with its timestamp in nanoseconds; `packet` is None when its layers cannot be decoded. */
  datatype CapPkt = CapPkt(packet: Option<seq<byte>>, ts: int)

  datatype Options = Options(ipgMicros: real, minIPGMicros: real, speedup: real)

  datatype LoadError = NoPackets | Undecodable(i: nat)

  function Name(i: nat): string {
    "pkt_" + Decimal(i)
  }

  /** Duration.Microseconds drops the fraction, towards zero. */
  function Micros(nanos: int): int {
    if nanos >= 0 then nanos / 1000 else -((-nanos) / 1000)
  }

  function MaxReal(a: real, b: real): real {
    if a >= b then a else b
  }

  /** The gap, in microseconds, before packet i. */
  function GapBefore(pkts: seq<CapPkt>, i: nat, opts: Options): real
    requires i < |pkts| && opts.speedup != 0.0
  {
    if opts.ipgMicros > 0.0 then opts.ipgMicros
    else if i == 0 then 0.0
    else MaxReal(Micros(pkts[i].ts - pkts[i - 1].ts) as real / opts.speedup, opts.minIPGMicros)
  }

  function Defaulted(opts: Options): (o: Options)
    ensures o.speedup != 0.0
  {
    if opts.speedup == 0.0 then opts.(speedup := 1.0) else opts
  }

  function StreamFor(pkts: seq<CapPkt>, i: nat, opts: Options): Spec
    requires i < |pkts| && opts.speedup != 0.0
  {
    Spec(Name(i), if i < |pkts| - 1 then Name(i + 1) else "", pkts[i].packet, None, None, false, i == 0,
         GapBefore(pkts, i, opts))
  }

  function Chain(pkts: seq<CapPkt>, opts: Options): seq<Spec>
    requires opts.speedup != 0.0
  {
    seq(|pkts|, i requires 0 <= i < |pkts| => StreamFor(pkts, i, opts))
  }

  predicate Decodable(pkts: seq<CapPkt>) {
    forall i :: 0 <= i < |pkts| ==> pkts[i].packet.Some?
  }

  method LoadPcap(pkts: seq<CapPkt>, options: Options) returns (r: Result<seq<Spec>, LoadError>)
    ensures match r
            case Err(NoPackets) => pkts == []
            case Err(Undecodable(i)) =>
              i < |pkts| && pkts[i].packet.None? && forall j :: 0 <= j < i ==> pkts[j].packet.Some?
            case Ok(profile) => pkts != [] && Decodable(pkts) && profile == Chain(pkts, Defaulted(options))
  {
    var opts := if options.speedup == 0.0 then options.(speedup := 1.0) else options;
    if |pkts| == 0 { return Err(NoPackets); }
    var profile: seq<Spec> := [];
    for i := 0 to |pkts|
      invariant |profile| == i
      invariant forall j :: 0 <= j < i ==> profile[j] == StreamFor(pkts, j, opts) && pkts[j].packet.Some?
    {
      if pkts[i].packet.None? { return Err(Undecodable(i)); }
      var isg := GapBefore(pkts, i, opts);
      var next := "";
      if i < |pkts| - 1 { next := Name(i + 1); }
      profile := profile + [Spec(Name(i), next, pkts[i].packet, None, None, false, i == 0, isg)];
    }
    return Ok(profile);
  }

  // ----- names are distinct

  lemma NameInjective(i: nat, j: nat)
    ensures Name(i) == Name(j) <==> i == j
    ensures Name(i) != ""
  {
    if Name(i) == Name(j) {
      assert Name(i)[4..] == Decimal(i) && Name(j)[4..] == Decimal(j);
      DecimalInjective(i, j);
    }
  }

  // ----- replay

  /** In the chain every packet links to the next one and to no other. */
  lemma ChainLinks(pkts: seq<CapPkt>, opts: Options, i: nat, j: nat)
    requires opts.speedup != 0.0 && i < |pkts| && j < |pkts|
    ensures Links(Chain(pkts, opts), i, j) <==> j == i + 1
  {
    var c := Chain(pkts, opts);
    assert c[i] == StreamFor(pkts, i, opts) && c[j] == StreamFor(pkts, j, opts);
    NameInjective(j, i + 1);
    NameInjective(i + 1, i + 1);
  }

  lemma ChainResolves(pkts: seq<CapPkt>, opts: Options)
    requires opts.speedup != 0.0 && Decodable(pkts)
    ensures Resolves(Chain(pkts, opts))
    ensures forall i :: 0 <= i < |pkts| ==> Allocate(Chain(pkts, opts))[i] == i
  {
    var c := Chain(pkts, opts);
    forall i: nat ensures !IsDuplicate(c, i) {
      if i < |c| {
        forall j: nat | j < i ensures c[j].name != c[i].name {
          NameInjective(j, i);
        }
      }
    }
    forall i: nat ensures !Broken(c, i) {
      if i < |c| && c[i].next != "" {
        ChainLinks(pkts, opts, i, i + 1);
        assert Links(c, i, i + 1);
      }
    }
    AutomaticIdsArePositions(c);
  }

  /** Following next ids from a self-starting stream until there is no next. */
  predicate IsReplay(out: seq<Resolved>, w: seq<nat>) {
    && |w| > 0 && (forall k :: 0 <= k < |w| ==> w[k] < |out|)
    && out[w[0]].spec.selfStart
    && (forall k :: 0 <= k < |w| - 1 ==> out[w[k]].nextStreamID == out[w[k + 1]].id)
    && out[w[|w| - 1]].nextStreamID == -1
  }

  function InOrder(n: nat): (s: seq<nat>)
    ensures |s| == n && forall k :: 0 <= k < n ==> s[k] == k
  {
    seq(n, k => k)
  }

  /** The ids and successors of a resolved chain. */
  lemma ChainNumbers(pkts: seq<CapPkt>, opts: Options, r: Result<seq<Resolved>, ResolveError>)
    requires pkts != [] && Decodable(pkts) && opts.speedup != 0.0 && IsResolution(Chain(pkts, opts), r)
    ensures r.Ok? && |r.value| == |pkts|
    ensures forall i :: 0 <= i < |pkts| ==>
              && r.value[i].id == i && (r.value[i].spec.selfStart <==> i == 0)
              && r.value[i].nextStreamID == (if i < |pkts| - 1 then i + 1 else -1)
  {
    var c := Chain(pkts, opts);
    ChainResolves(pkts, opts);
    SucceedsIffResolves(c, r);
    forall i: nat | i < |pkts|
      ensures r.value[i].nextStreamID == (if i < |pkts| - 1 then i + 1 else -1)
    {
      assert NextIs(c, i, r.value[i].nextStreamID);
      NameInjective(i + 1, 0);
      if i < |pkts| - 1 {
        var j: nat :| Links(c, i, j) && r.value[i].nextStreamID == Allocate(c)[j];
        ChainLinks(pkts, opts, i, j);
      }
    }
  }

  /** Every non-empty decodable capture resolves, and its one replay visits every packet once, in order. */
  lemma ReplayIsCaptureOrder(pkts: seq<CapPkt>, opts: Options, r: Result<seq<Resolved>, ResolveError>, w: seq<nat>)
    requires pkts != [] && Decodable(pkts) && opts.speedup != 0.0 && IsResolution(Chain(pkts, opts), r)
    ensures r.Ok? && (IsReplay(r.value, w) <==> w == InOrder(|pkts|))
  {
    ChainNumbers(pkts, opts, r);
    var out, n := r.value, |pkts|;
    if IsReplay(out, w) {
      forall k: nat | k < |w| ensures w[k] == k {
        StepsCount(out, n, w, k);
      }
      assert |w| - 1 == n - 1;
    }
  }

  lemma {:induction false} StepsCount(out: seq<Resolved>, n: nat, w: seq<nat>, k: nat)
    requires n > 0 && |out| == n && IsReplay(out, w) && k < |w|
    requires forall i :: 0 <= i < n ==> && out[i].id == i && (out[i].spec.selfStart <==> i == 0)
                                        && out[i].nextStreamID == (if i < n - 1 then i + 1 else -1)
    ensures w[k] == k
    decreases k
  {
    if k > 0 {
      StepsCount(out, n, w, k - 1);
      assert out[w[k - 1]].nextStreamID == out[w[k - 1 + 1]].id;
    }
  }

  // ----- timing

  function TotalGap(profile: seq<Spec>): real {
    if profile == [] then 0.0 else TotalGap(profile[..|profile| - 1]) + profile[|profile| - 1].isg
  }

  /** Whole microseconds before packet i. */
  function MicroStep(pkts: seq<CapPkt>, i: nat): int
    requires i < |pkts|
  {
    if i == 0 then 0 else Micros(pkts[i].ts - pkts[i - 1].ts)
  }

  function MicroSum(pkts: seq<CapPkt>): int {
    if pkts == [] then 0 else
      var n := |pkts| - 1;
      MicroSum(pkts[..n]) + MicroStep(pkts, n)
  }

  predicate Chronological(pkts: seq<CapPkt>) {
    forall i :: 0 < i < |pkts| ==> pkts[i - 1].ts <= pkts[i].ts
  }

  /** Gaps that are each f of a number of microseconds add up to f of the sum of those numbers. */
  lemma {:induction false} GapsAddUp(profile: seq<Spec>, pkts: seq<CapPkt>, f: real -> real)
    requires |profile| == |pkts| && Additive(f)
    requires forall i :: 0 <= i < |pkts| ==> profile[i].isg == f(MicroStep(pkts, i) as real)
    ensures TotalGap(profile) == f(MicroSum(pkts) as real)
    decreases |pkts|
  {
    if pkts != [] {
      var n := |pkts| - 1;
      forall i | 0 <= i < n ensures MicroStep(pkts[..n], i) == MicroStep(pkts, i) { }
      GapsAddUp(profile[..n], pkts[..n], f);
      assert AddsAt(f, MicroSum(pkts[..n]) as real, MicroStep(pkts, n) as real);
    }
  }

  function Over(speedup: real): real -> real
    requires speedup != 0.0
  {
    x => x / speedup
  }

  lemma OverIsAdditive(speedup: real)
    requires speedup != 0.0
    ensures Additive(Over(speedup))
  {
    forall a, b ensures AddsAt(Over(speedup), a, b) {
      Quotients(a, b, speedup);
    }
  }

  lemma Quotients(a: real, b: real, s: real)
    requires s != 0.0
    ensures (a + b) / s == a / s + b / s
  {
  }

  lemma NonNegativeQuotient(x: real, s: real)
    requires x >= 0.0 && s > 0.0
    ensures x / s >= 0.0
  {
  }

  lemma {:induction false} MicrosFollowTimestamps(pkts: seq<CapPkt>)
    requires pkts != [] && Chronological(pkts)
    ensures var n := |pkts| - 1;
            var span := pkts[n].ts - pkts[0].ts;
            && span - 1000 * n <= 1000 * MicroSum(pkts) <= span
            && (n > 0 ==> span - 1000 * n < 1000 * MicroSum(pkts))
    decreases |pkts|
  {
    var n := |pkts| - 1;
    if n > 0 {
      MicrosFollowTimestamps(pkts[..n]);
      assert pkts[n - 1].ts <= pkts[n].ts;
    }
  }

  predicate OnTimestamps(opts: Options) {
    opts.ipgMicros <= 0.0 && opts.minIPGMicros <= 0.0 && opts.speedup > 0.0
  }

  lemma OneGap(pkts: seq<CapPkt>, opts: Options, i: nat)
    requires i < |pkts| && Chronological(pkts) && OnTimestamps(opts)
    ensures Chain(pkts, opts)[i].isg == Over(opts.speedup)(MicroStep(pkts, i) as real)
  {
    NonNegativeQuotient(MicroStep(pkts, i) as real, opts.speedup);
  }

  lemma ChainGaps(pkts: seq<CapPkt>, opts: Options, c: seq<Spec>, f: real -> real)
    requires Chronological(pkts) && OnTimestamps(opts) && c == Chain(pkts, opts) && f == Over(opts.speedup)
    ensures TotalGap(c) == f(MicroSum(pkts) as real)
  {
    forall i: nat | i < |pkts| ensures c[i].isg == f(MicroStep(pkts, i) as real) {
      OneGap(pkts, opts, i);
    }
    OverIsAdditive(opts.speedup);
    GapsAddUp(c, pkts, f);
  }

  /** Replaying on capture timestamps, the gaps of the profile add up to a whole number of microseconds over the
      speedup, and that number is the span of the capture, short by less than one a gap. */
  lemma GapsFollowTimestamps(pkts: seq<CapPkt>, opts: Options)
    requires pkts != [] && Chronological(pkts) && OnTimestamps(opts)
    ensures TotalGap(Chain(pkts, opts)) == MicroSum(pkts) as real / opts.speedup
    ensures var n := |pkts| - 1;
            var span := pkts[n].ts - pkts[0].ts;
            && span - 1000 * n <= 1000 * MicroSum(pkts) <= span
            && (n > 0 ==> span - 1000 * n < 1000 * MicroSum(pkts))
  {
    ChainGaps(pkts, opts, Chain(pkts, opts), Over(opts.speedup));
    MicrosFollowTimestamps(pkts);
  }

  /** q is n over d without its fraction, towards zero. */
  predicate IsQuotient(q: int, n: int, d: nat) {
    if n >= 0 then q * d <= n < (q + 1) * d else (q - 1) * d < n <= q * d
  }

  /** What every stream of a loaded capture is, in any configuration: its number in its name, the captured packet, on
      its own start only for the first, and before it a fixed gap if one is asked for; otherwise none before the first
      packet, and before the others the whole microseconds since the one before over the speedup, which is 1 if it is
      not given, but no less than the minimum. */
  lemma StreamsOfCapture(pkts: seq<CapPkt>, options: Options, i: nat) returns (micros: int)
    requires i < |pkts|
    ensures var s := Chain(pkts, Defaulted(options))[i];
            var speedup := if options.speedup == 0.0 then 1.0 else options.speedup;
            && s.name == "pkt_" + Decimal(i) && s.packet == pkts[i].packet && (s.selfStart <==> i == 0)
            && s.streamID == None && s.direction == None && !s.dummy
            && (options.ipgMicros > 0.0 ==> s.isg == options.ipgMicros)
            && (options.ipgMicros <= 0.0 && i == 0 ==> s.isg == 0.0)
            && (options.ipgMicros <= 0.0 && i > 0 ==>
                && IsQuotient(micros, pkts[i].ts - pkts[i - 1].ts, 1000)
                && s.isg >= options.minIPGMicros && s.isg >= micros as real / speedup
                && (s.isg == options.minIPGMicros || s.isg == micros as real / speedup))
  {
    micros := if i > 0 then Micros(pkts[i].ts - pkts[i - 1].ts) else 0;
  }
}
