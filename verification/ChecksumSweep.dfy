/** The checksum_sweep compiler (pkg/stl/dsl/vm.go) and the field-engine program it emits, run for an unbounded number
    of packets and judged by the one's-complement checksum of section 1 of RFC 1071. */
module ChecksumSweep {
  import opened Prelude
  import opened Packets

  // ----- the compiler

  /** An offset as the profile gives it. */
  datatype OffsetArg = Missing | Number(n: int) | Fraction(x: real) | Symbol(ref: string) | Unusable

  datatype SweepError = MissingOffset | InvalidOffset | BadReference(e: RefError) | OutOfRange | TooSmall | Panic

  /** Go's conversion of a float to an int drops the fraction. */
  function Truncate(x: real): int {
    if x >= 0.0 then x.Floor else -((-x).Floor)
  }

  function ResolveArg(pkt: Packet, v: OffsetArg): Result<int, SweepError> {
    match v
    case Missing => Err(MissingOffset)
    case Number(n) => Ok(n)
    case Fraction(x) => Ok(Truncate(x))
    case Symbol(ref) => (match ResolveOffset(pkt, ref) case Ok(o) => Ok(o) case Err(e) => Err(BadReference(e)))
    case Unusable => Err(InvalidOffset)
  }

  datatype VarOp = Inc | Dec

  datatype Instruction =
    | FlowVar(name: string, size: nat, op: VarOp, init: uint64, min: uint64, max: uint64, step: nat)
    | WriteFlowVar(name: string, pktOffset: int, addValue: int)

  function Word(bytes: seq<byte>, at: nat): uint16
    requires at + 2 <= |bytes|
  {
    bytes[at] as int * 256 + bytes[at + 1]
  }

  /** A negative checksum offset passes the range check and panics when the packet is sliced. */
  function BuildChecksumSweep(pkt: Packet, offset: OffsetArg, checksum: OffsetArg, min: Option<uint64>)
    : Result<seq<Instruction>, SweepError>
  {
    match ResolveArg(pkt, offset)
    case Err(e) => Err(e)
    case Ok(off) =>
      match ResolveArg(pkt, checksum)
      case Err(e) => Err(e)
      case Ok(csum) =>
        if csum + 2 > |pkt.binary| then Err(OutOfRange)
        else if csum < 0 then Err(Panic)
        else
          var base := Word(pkt.binary, csum);
          if base < 2 then Err(TooSmall) else
            Ok(SweepProgram(off, csum, base, First(min)))
  }

  /** Where the swept field starts: the profile's min, or 1024. */
  function First(min: Option<uint64>): uint64 {
    match min case Some(m) => m case None => 1024
  }

  function SweepProgram(off: int, csum: int, base: uint16, min: uint64): seq<Instruction>
    requires base >= 2
  {
    var span := base - 1;
    [ FlowVar("sport", 2, Inc, min, min, Add64(min, span), 1),
      WriteFlowVar("sport", off, 0),
      FlowVar("ocks", 2, Dec, base, base - span, base, 1),
      WriteFlowVar("ocks", csum, 0) ]
  }

  // ----- what the server does with a program: an explicit model, the server is not part of this repository

  /** A variable steps within [min, max] and wraps around to the other end. */
  function Next(v: Instruction, x: int): int
    requires v.FlowVar?
  {
    var width := v.max - v.min + 1;
    match v.op
    case Inc => if x + v.step > v.max then x + v.step - width else x + v.step
    case Dec => if x - v.step < v.min then x - v.step + width else x - v.step
  }

  /** The variable's value in packet n, counted from 0. */
  function ValueAt(v: Instruction, n: nat): int
    requires v.FlowVar?
  {
    if n == 0 then v.init else Next(v, ValueAt(v, n - 1))
  }

  /** The low `size` bytes of x, most significant first. */
  function BigEndian(x: int, size: nat): (b: seq<byte>)
    ensures |b| == size
    decreases size
  {
    if size == 0 then [] else BigEndian(x / 256, size - 1) + [x % 256]
  }

  datatype Var = Var(value: int, size: nat)

  /** Runs the program on packet n. A write outside the packet or of an unknown variable has no effect. */
  function Run(program: seq<Instruction>, n: nat, vars: map<string, Var>, bin: seq<byte>): (out: seq<byte>)
    ensures |out| == |bin|
    decreases |program|
  {
    if program == [] then bin else
      match program[0]
      case FlowVar(name, size, _, _, _, _, _) =>
        Run(program[1..], n, vars[name := Var(ValueAt(program[0], n), size)], bin)
      case WriteFlowVar(name, at, add) =>
        Run(program[1..], n, vars,
            if name in vars && 0 <= at && at + vars[name].size <= |bin|
            then Overwrite(bin, at, BigEndian(vars[name].value + add, vars[name].size)) else bin)
  }

  function PacketAt(program: seq<Instruction>, bin: seq<byte>, n: nat): seq<byte> {
    Run(program, n, map[], bin)
  }

  function SetWord(bytes: seq<byte>, at: nat, w: int): seq<byte>
    requires at + 2 <= |bytes|
  {
    Overwrite(bytes, at, BigEndian(w, 2))
  }

  // ----- lock-step of the two variables

  /** How many packets ago a variable with `base` values last wrapped. */
  function Phase(n: nat, base: nat): (k: nat)
    requires base >= 1
    ensures k < base
  {
    if n == 0 then 0 else
      var k := Phase(n - 1, base);
      if k == base - 1 then 0 else k + 1
  }

  lemma {:induction false} PhaseIsPeriodic(n: nat, base: nat)
    requires base >= 1
    ensures Phase(n, base) == n % base
    decreases n
  {
    if n == 0 {
      ModUnique(0, 0, base);
    } else {
      PhaseIsPeriodic(n - 1, base);
      var q, r := (n - 1) / base, (n - 1) % base;
      assert n - 1 == q * base + r;
      if r == base - 1 {
        assert n == (q + 1) * base + 0;
        ModUnique(q + 1, 0, base);
      } else {
        ModUnique(q, r + 1, base);
      }
    }
  }

  lemma ModUnique(q: int, r: int, b: int)
    requires 0 <= r < b
    ensures (q * b + r) % b == r
  {
    var n := q * b + r;
    var q', r' := n / b, n % b;
    assert n == q' * b + r';
    assert (q - q') * b == r' - r;
    AtLeastOnce(q - q', b);
    AtLeastOnce(q' - q, b);
  }

  lemma AtLeastOnce(k: int, b: int)
    requires b >= 1
    ensures k >= 1 ==> k * b >= b
  {
  }

  /** Every phase occurs. */
  lemma {:induction false} PhaseReached(k: nat, base: nat)
    requires k < base
    ensures Phase(k, base) == k
  {
    if k > 0 { PhaseReached(k - 1, base); }
  }

  /** A unit variable over `base` values, started at one end. */
  lemma {:induction false} UnitVariable(v: Instruction, base: nat, n: nat)
    requires v.FlowVar? && v.step == 1 && base >= 1 && v.max == v.min + base - 1
    requires v.init == if v.op.Inc? then v.min else v.max
    ensures ValueAt(v, n) == if v.op.Inc? then v.min + Phase(n, base) else v.max - Phase(n, base)
    decreases n
  {
    if n > 0 { UnitVariable(v, base, n - 1); }
  }

  /** The four instructions, with the end of the swept range as a plain number. */
  predicate IsSweep(p: seq<Instruction>, off: int, csum: int, base: int, min: int) {
    && |p| == 4
    && p[0].FlowVar? && p[0].name == "sport" && p[0].size == 2 && p[0].op.Inc? && p[0].step == 1
    && p[0].init == p[0].min == min && p[0].max == min + base - 1
    && p[1] == WriteFlowVar("sport", off, 0)
    && p[2].FlowVar? && p[2].name == "ocks" && p[2].size == 2 && p[2].op.Dec? && p[2].step == 1
    && p[2].init == p[2].max == base && p[2].min == 1
    && p[3] == WriteFlowVar("ocks", csum, 0)
  }

  lemma SweepShape(off: int, csum: int, base: uint16, min: uint64)
    requires base >= 2 && min + base - 1 < TWO_64
    ensures IsSweep(SweepProgram(off, csum, base, min), off, csum, base, min)
  {
    NoWrap(min, base - 1);
  }

  lemma NoWrap(a: uint64, b: uint64)
    requires a + b < TWO_64
    ensures Add64(a, b) == a + b
  {
  }

  lemma InPhase(p: seq<Instruction>, off: int, csum: int, base: nat, min: int, n: nat)
    requires base >= 2 && IsSweep(p, off, csum, base, min)
    ensures ValueAt(p[0], n) == min + Phase(n, base)
    ensures ValueAt(p[2], n) == base - Phase(n, base)
  {
    UnitVariable(p[0], base, n);
    UnitVariable(p[2], base, n);
  }

  /** Both variables have period `base` and wrap at the same packet; the checksum variable never reaches 0. */
  lemma LockStep(off: int, csum: int, base: uint16, min: uint64, n: nat)
    requires base >= 2 && min + base - 1 < TWO_64
    ensures ValueAt(SweepProgram(off, csum, base, min)[0], n) == min + n % base
    ensures ValueAt(SweepProgram(off, csum, base, min)[2], n) == base - n % base
    ensures 1 <= ValueAt(SweepProgram(off, csum, base, min)[2], n) <= base
  {
    SweepShape(off, csum, base, min);
    InPhase(SweepProgram(off, csum, base, min), off, csum, base, min, n);
    PhaseIsPeriodic(n, base);
  }

  /** A packet k steps into the sweep: the field and the checksum, and nothing else, overwritten. */
  function Swept(bin: seq<byte>, off: nat, csum: nat, base: int, min: int, k: nat): (out: seq<byte>)
    requires off + 2 <= |bin| && csum + 2 <= |bin|
    ensures |out| == |bin|
  {
    SetWord(SetWord(bin, off, min + k), csum, base - k)
  }

  /** What the program makes of packet n. */
  lemma ProgramSweeps(p: seq<Instruction>, bin: seq<byte>, off: nat, csum: nat, base: nat, min: int, n: nat)
    requires base >= 2 && IsSweep(p, off, csum, base, min) && off + 2 <= |bin| && csum + 2 <= |bin|
    ensures PacketAt(p, bin, n) == Swept(bin, off, csum, base, min, Phase(n, base))
  {
    InPhase(p, off, csum, base, min, n);
    SweepPairs(p, off, csum, base, min);
    PairsSweep(p, bin, off, csum, base, min, n, Phase(n, base));
  }

  lemma PairsSweep(p: seq<Instruction>, bin: seq<byte>, off: nat, csum: nat, base: int, min: int, n: nat, k: nat)
    requires |p| == 4 && IsPair(p[0], p[1], off) && IsPair(p[2], p[3], csum) && off + 2 <= |bin| && csum + 2 <= |bin|
    requires ValueAt(p[0], n) == min + k && ValueAt(p[2], n) == base - k
    ensures PacketAt(p, bin, n) == Swept(bin, off, csum, base, min, k)
  {
    RunPairs(p, n, bin, off, csum, min + k, base - k);
  }

  predicate IsPair(v: Instruction, w: Instruction, at: int) {
    v.FlowVar? && v.size == 2 && w.WriteFlowVar? && w.name == v.name && w.addValue == 0 && w.pktOffset == at
  }

  lemma SweepPairs(p: seq<Instruction>, off: int, csum: int, base: int, min: int)
    requires IsSweep(p, off, csum, base, min)
    ensures |p| == 4 && IsPair(p[0], p[1], off) && IsPair(p[2], p[3], csum)
  {
  }

  /** Running two variables, each written once. */
  lemma RunPairs(p: seq<Instruction>, n: nat, bin: seq<byte>, off: nat, csum: nat, x: int, y: int)
    requires |p| == 4 && IsPair(p[0], p[1], off) && IsPair(p[2], p[3], csum) && off + 2 <= |bin| && csum + 2 <= |bin|
    requires ValueAt(p[0], n) == x && ValueAt(p[2], n) == y
    ensures PacketAt(p, bin, n) == SetWord(SetWord(bin, off, x), csum, y)
  {
    var once := SetWord(bin, off, x);
    var vars := map[p[0].name := Var(x, 2)];
    RunPair(p, n, map[], bin, off);
    RunPair(p[2..], n, vars, once, csum);
    assert p[2..][2..] == [];
    assert Run([], n, vars[p[2].name := Var(y, 2)], SetWord(once, csum, y)) == SetWord(once, csum, y);
  }

  /** A two-byte variable followed by its write. */
  lemma RunPair(p: seq<Instruction>, n: nat, vars: map<string, Var>, bin: seq<byte>, at: nat)
    requires |p| >= 2 && IsPair(p[0], p[1], at) && at + 2 <= |bin|
    ensures Run(p, n, vars, bin)
         == Run(p[2..], n, vars[p[0].name := Var(ValueAt(p[0], n), 2)], SetWord(bin, at, ValueAt(p[0], n)))
  {
    var vars' := vars[p[0].name := Var(ValueAt(p[0], n), 2)];
    assert p[1..][1..] == p[2..] && p[1..][0] == p[1];
    assert Run(p, n, vars, bin) == Run(p[1..], n, vars', bin);
  }

  // ----- the one's-complement checksum

  /** Sum of the big-endian 16-bit words of a region; an odd last byte is padded with zero. */
  function WordSum(b: seq<byte>): nat {
    if |b| == 0 then 0
    else if |b| == 1 then b[0] as int * 256
    else b[0] as int * 256 + b[1] + WordSum(b[2..])
  }

  /** End-around carry until the sum fits in 16 bits. */
  function Fold(n: nat): nat
    decreases n
  {
    if n < TWO_16 then n else Fold(n / TWO_16 + n % TWO_16)
  }

  /** A receiver accepts the region when the folded sum, pseudo header included, is all ones. */
  predicate Verifies(bin: seq<byte>, from: nat, to: nat, pseudo: nat)
    requires from <= to <= |bin|
  {
    Fold(pseudo + WordSum(bin[from..to])) == 0xFFFF
  }

  lemma {:induction false} FoldKeepsResidue(n: nat)
    ensures Fold(n) < TWO_16 && Fold(n) % 0xFFFF == n % 0xFFFF && (Fold(n) == 0 <==> n == 0)
    decreases n
  {
    if n >= TWO_16 {
      FoldKeepsResidue(n / TWO_16 + n % TWO_16);
      CarryKeepsResidue(n / TWO_16, n % TWO_16);
    }
  }

  lemma CarryKeepsResidue(q: nat, r: nat)
    ensures (TWO_16 * q + r) % 0xFFFF == (q + r) % 0xFFFF
  {
    assert TWO_16 * q + r == q + r + 0xFFFF * q;
  }

  /** Acceptance is divisibility of the plain sum by 65535. */
  lemma VerifiesIffDivisible(bin: seq<byte>, from: nat, to: nat, pseudo: nat)
    requires from <= to <= |bin|
    ensures var total := pseudo + WordSum(bin[from..to]);
            Verifies(bin, from, to, pseudo) <==> total > 0 && total % 0xFFFF == 0
  {
    FoldKeepsResidue(pseudo + WordSum(bin[from..to]));
  }

  lemma {:induction false} WordSumSet(b: seq<byte>, at: nat, w: int)
    requires at % 2 == 0 && at + 2 <= |b|
    ensures WordSum(SetWord(b, at, w)) == WordSum(b) - Word(b, at) + w % TWO_16
    decreases |b|
  {
    var s := SetWord(b, at, w);
    BigEndianWord(w);
    if at == 0 {
      assert s[2..] == b[2..];
    } else {
      WordSumSet(b[2..], at - 2, w);
      assert s[2..] == SetWord(b[2..], at - 2, w);
      assert s[0] == b[0] && s[1] == b[1];
    }
  }

  lemma BigEndianWord(w: int)
    ensures BigEndian(w, 2)[0] as int * 256 + BigEndian(w, 2)[1] == w % TWO_16
  {
    assert BigEndian(w / 256, 1) == BigEndian(w / 256 / 256, 0) + [w / 256 % 256];
    assert BigEndian(w, 2) == BigEndian(w / 256, 1) + [w % 256];
  }

  lemma SetWordSlice(b: seq<byte>, from: nat, to: nat, at: nat, w: int)
    requires from <= at && at + 2 <= to <= |b|
    ensures SetWord(b, at, w)[from..to] == SetWord(b[from..to], at - from, w)
  {
  }

  /** Both fields are whole 16-bit words of the summed region, and not the same one. */
  predicate Covered(len: nat, from: nat, to: nat, off: nat, csum: nat) {
    && from <= off && from <= csum && off + 2 <= to && csum + 2 <= to <= len
    && (off - from) % 2 == 0 && (csum - from) % 2 == 0 && off != csum
  }

  lemma OneWord(bin: seq<byte>, from: nat, to: nat, at: nat, w: int)
    requires from <= at && at + 2 <= to <= |bin| && (at - from) % 2 == 0
    ensures WordSum(SetWord(bin, at, w)[from..to]) == WordSum(bin[from..to]) - Word(bin, at) + w % TWO_16
  {
    SetWordSlice(bin, from, to, at, w);
    WordSumSet(bin[from..to], at - from, w);
  }

  lemma OtherWord(bin: seq<byte>, off: nat, csum: nat, w: int)
    requires off + 2 <= |bin| && csum + 2 <= |bin| && (off + 2 <= csum || csum + 2 <= off)
    ensures Word(SetWord(bin, off, w), csum) == Word(bin, csum)
  {
  }

  lemma TwoWords(bin: seq<byte>, from: nat, to: nat, off: nat, csum: nat, w1: int, w2: int)
    requires Covered(|bin|, from, to, off, csum)
    ensures WordSum(SetWord(SetWord(bin, off, w1), csum, w2)[from..to])
         == WordSum(bin[from..to]) - Word(bin, off) - Word(bin, csum) + w1 % TWO_16 + w2 % TWO_16
  {
    var once := SetWord(bin, off, w1);
    Apart(|bin|, from, to, off, csum);
    assert WordSum(once[from..to]) == WordSum(bin[from..to]) - Word(bin, off) + w1 % TWO_16 by {
      OneWord(bin, from, to, off, w1);
    }
    assert Word(once, csum) == Word(bin, csum) by { OtherWord(bin, off, csum, w1); }
    OneWord(once, from, to, csum, w2);
  }

  /** Distinct aligned words do not overlap. */
  lemma Apart(len: nat, from: nat, to: nat, off: nat, csum: nat)
    requires Covered(len, from, to, off, csum)
    ensures off + 2 <= csum || csum + 2 <= off
  {
  }

  // ----- the sum along the sweep, as a matter of arithmetic

  /** The sum k steps into the sweep, from the built packet's sum and field. */
  function SumAt(total: int, field: int, min: int, k: int): int {
    total - field - k + (min + k) % TWO_16
  }

  predicate Accepted(sum: int) {
    sum > 0 && sum % 0xFFFF == 0
  }

  lemma SweptWords(bin: seq<byte>, from: nat, to: nat, off: nat, csum: nat, base: int, min: int, k: nat,
                   w1: int, w2: int)
    requires Covered(|bin|, from, to, off, csum) && w1 == min + k && w2 == base - k
    ensures WordSum(Swept(bin, off, csum, base, min, k)[from..to])
         == WordSum(bin[from..to]) - Word(bin, off) - Word(bin, csum) + w1 % TWO_16 + w2 % TWO_16
  {
    SweptIs(bin, off, csum, base, min, k, w1, w2);
    TwoWords(bin, from, to, off, csum, w1, w2);
  }

  lemma SweptIs(bin: seq<byte>, off: nat, csum: nat, base: int, min: int, k: nat, w1: int, w2: int)
    requires w1 == min + k && w2 == base - k && off + 2 <= |bin| && csum + 2 <= |bin|
    ensures Swept(bin, off, csum, base, min, k) == SetWord(SetWord(bin, off, w1), csum, w2)
  {
  }

  lemma SweptSum(bin: seq<byte>, from: nat, to: nat, off: nat, csum: nat, min: uint64, k: nat)
    requires Covered(|bin|, from, to, off, csum) && k < Word(bin, csum)
    ensures WordSum(Swept(bin, off, csum, Word(bin, csum), min, k)[from..to])
         == SumAt(WordSum(bin[from..to]), Word(bin, off), min, k)
  {
    var base := Word(bin, csum);
    SweptWords(bin, from, to, off, csum, base, min, k, min + k, base - k);
    SmallWord(base - k);
  }

  lemma SweptAccepted(bin: seq<byte>, from: nat, to: nat, pseudo: nat, off: nat, csum: nat, min: uint64, k: nat)
    requires Covered(|bin|, from, to, off, csum) && k < Word(bin, csum)
    ensures Verifies(Swept(bin, off, csum, Word(bin, csum), min, k), from, to, pseudo)
            <==> Accepted(SumAt(pseudo + WordSum(bin[from..to]), Word(bin, off), min, k))
  {
    SweptSum(bin, from, to, off, csum, min, k);
    VerifiesIffDivisible(Swept(bin, off, csum, Word(bin, csum), min, k), from, to, pseudo);
  }

  lemma SmallWord(w: int)
    requires 0 <= w < TWO_16
    ensures w % TWO_16 == w
  {
  }

  /** The sum is at least the two words it contains. */
  lemma AtLeastTwoWords(bin: seq<byte>, from: nat, to: nat, off: nat, csum: nat)
    requires Covered(|bin|, from, to, off, csum)
    ensures WordSum(bin[from..to]) >= Word(bin, off) + Word(bin, csum)
  {
    TwoWords(bin, from, to, off, csum, 0, 0);
  }

  /** Within 16 bits the sum does not move at all. */
  lemma SumIsConstant(total: int, field: int, min: int, k: nat)
    requires min % TWO_16 + k < TWO_16
    ensures SumAt(total, field, min, k) == SumAt(total, field, min, 0) == total - field + min % TWO_16
  {
  }

  /** Past 16 bits it drops by 65536, one more than a multiple of 65535. */
  lemma OverrunBreaks(total: int, field: int, min: int)
    requires Accepted(SumAt(total, field, min, 0))
    ensures !Accepted(SumAt(total, field, min, TWO_16 - min % TWO_16))
  {
    var m := min % TWO_16;
    assert (min + (TWO_16 - m)) % TWO_16 == 0;
    assert SumAt(total, field, min, TWO_16 - m) == SumAt(total, field, min, 0) - TWO_16;
  }

  predicate RunsWithin16(min: int, base: int) {
    min % TWO_16 + base - 1 < TWO_16
  }

  predicate StartsAt(min: int, field: int) {
    (min % TWO_16) % 0xFFFF == field % 0xFFFF
  }

  lemma AcceptedThroughoutIff(total: int, field: int, base: int, min: int)
    requires Accepted(total) && base >= 2 && total >= field + base && 0 <= field
    ensures (forall k: nat :: k < base ==> Accepted(SumAt(total, field, min, k)))
            <==> RunsWithin16(min, base) && StartsAt(min, field)
  {
    SumIsConstant(total, field, min, 0);
    Residue(total, field, min % TWO_16);
    if RunsWithin16(min, base) {
      forall k: nat | k < base ensures SumAt(total, field, min, k) == total - field + min % TWO_16 {
        SumIsConstant(total, field, min, k);
      }
      assert Accepted(SumAt(total, field, min, 0)) <==> StartsAt(min, field);
    } else if Accepted(SumAt(total, field, min, 0)) {
      OverrunBreaks(total, field, min);
    }
  }

  lemma Residue(total: int, field: int, m: int)
    requires total % 0xFFFF == 0
    ensures (total - field + m) % 0xFFFF == 0 <==> m % 0xFFFF == field % 0xFFFF
  {
    var t := total / 0xFFFF;
    assert total == 0xFFFF * t;
  }

  // ----- the theorem

  /** The packet the sweep sends verifies at every step of the unbounded run. */
  ghost predicate AlwaysVerifies(program: seq<Instruction>, bin: seq<byte>, from: nat, to: nat, pseudo: nat)
    requires from <= to <= |bin|
  {
    forall n: nat :: Verifies(PacketAt(program, bin, n), from, to, pseudo)
  }

  /** The theorem below, for a range whose end does not wrap in 64 bits. */
  lemma BoundedSweepIsValidIff(bin: seq<byte>, from: nat, to: nat, pseudo: nat, off: nat, csum: nat, min: uint64)
    requires Covered(|bin|, from, to, off, csum) && Word(bin, csum) >= 2 && min + Word(bin, csum) - 1 < TWO_64
    requires Verifies(bin, from, to, pseudo)
    ensures AlwaysVerifies(SweepProgram(off, csum, Word(bin, csum), min), bin, from, to, pseudo)
            <==> RunsWithin16(min, Word(bin, csum)) && StartsAt(min, Word(bin, off))
  {
    var base, field, total := Word(bin, csum), Word(bin, off), pseudo + WordSum(bin[from..to]);
    var program := SweepProgram(off, csum, base, min);
    VerifiesIffDivisible(bin, from, to, pseudo);
    AtLeastTwoWords(bin, from, to, off, csum);
    AcceptedThroughoutIff(total, field, base, min);
    if AlwaysVerifies(program, bin, from, to, pseudo) {
      forall k: nat | k < base ensures Accepted(SumAt(total, field, min, k)) {
        assert Verifies(PacketAt(program, bin, k), from, to, pseudo);
        PacketAccepted(bin, from, to, pseudo, off, csum, min, k);
        PhaseReached(k, base);
      }
    }
    if forall k: nat :: k < base ==> Accepted(SumAt(total, field, min, k)) {
      forall n: nat ensures Verifies(PacketAt(program, bin, n), from, to, pseudo) {
        PacketAccepted(bin, from, to, pseudo, off, csum, min, n);
      }
    }
  }

  lemma PacketAccepted(bin: seq<byte>, from: nat, to: nat, pseudo: nat, off: nat, csum: nat, min: uint64, n: nat)
    requires Covered(|bin|, from, to, off, csum) && Word(bin, csum) >= 2 && min + Word(bin, csum) - 1 < TWO_64
    ensures Verifies(PacketAt(SweepProgram(off, csum, Word(bin, csum), min), bin, n), from, to, pseudo)
            <==> Accepted(SumAt(pseudo + WordSum(bin[from..to]), Word(bin, off), min, Phase(n, Word(bin, csum))))
  {
    SweepShape(off, csum, Word(bin, csum), min);
    ProgramSweeps(SweepProgram(off, csum, Word(bin, csum), min), bin, off, csum, Word(bin, csum), min, n);
    SweptAccepted(bin, from, to, pseudo, off, csum, min, Phase(n, Word(bin, csum)));
  }

  // ----- a range whose end wraps in 64 bits

  /** Within 16 bits the end of the range cannot wrap. */
  lemma Within16DoesNotWrap(min: uint64, base: uint16)
    requires RunsWithin16(min, base)
    ensures min + base - 1 < TWO_64
  {
  }

  /** With its maximum below its minimum the field jumps by one range each packet, while the checksum counts down by
      one. */
  lemma WrappedValues(off: int, csum: int, base: uint16, min: uint64)
    requires base >= 2 && min + base - 1 >= TWO_64
    ensures var p := SweepProgram(off, csum, base, min);
            && ValueAt(p[0], 0) == min && ValueAt(p[2], 0) == base
            && ValueAt(p[0], 1) == min + 1 - base + TWO_64 && ValueAt(p[2], 1) == base - 1
            && ValueAt(p[0], 2) == min + 2 - 2 * base + 2 * TWO_64 && (base >= 3 ==> ValueAt(p[2], 2) == base - 2)
  {
    var p := SweepProgram(off, csum, base, min);
    assert p[0].max == min + base - 1 - TWO_64;
    assert ValueAt(p[0], 1) == Next(p[0], min) && ValueAt(p[2], 1) == Next(p[2], base);
    assert ValueAt(p[0], 2) == Next(p[0], ValueAt(p[0], 1));
    if base >= 3 { assert ValueAt(p[2], 2) == Next(p[2], base - 1); }
  }

  /** So the first three sums cannot all be divisible by 65535. */
  lemma WrappedSums(t: int, min: uint64, base: uint16) returns (x1: int, x2: int, s0: int, s1: int, s2: int)
    requires base >= 2
    ensures x1 == min + 1 - base + TWO_64 && x2 == min + 2 - 2 * base + 2 * TWO_64
    ensures s0 == t + min % TWO_16 + base && s1 == t + x1 % TWO_16 + (base - 1) && s2 == t + x2 % TWO_16 + (base - 2)
    ensures !(Accepted(s0) && Accepted(s1) && (base >= 3 ==> Accepted(s2)))
  {
    x1, x2 := min + 1 - base + TWO_64, min + 2 - 2 * base + 2 * TWO_64;
    var m, m1, m2 := min % TWO_16, x1 % TWO_16, x2 % TWO_16;
    s0, s1, s2 := t + m + base, t + m1 + (base - 1), t + m2 + (base - 2);
    assert m1 == (m + 1 - base) % TWO_16 by { WholeRanges(min + 1 - base, 1); }
    assert m2 == (m + 2 - 2 * base) % TWO_16 by { WholeRanges(min + 2 - 2 * base, 2); }
    ThreeSums(t, m, base, m1, m2);
  }

  lemma ThreeSums(t: int, m: uint16, base: uint16, m1: int, m2: int)
    requires base >= 2 && m1 == (m + 1 - base) % TWO_16 && m2 == (m + 2 - 2 * base) % TWO_16
    ensures !(&& Accepted(t + m + base) && Accepted(t + m1 + base - 1)
              && (base >= 3 ==> Accepted(t + m2 + base - 2)))
  {
    if Accepted(t + m + base) && Accepted(t + m1 + base - 1) {
      MultiplesDiffer(t + m1 + base - 1, t + m + base);
      FirstJump(m, base, m1);
      if Accepted(t + m2 + base - 2) {
        MultiplesDiffer(t + m2 + base - 2, t + m1 + base - 1);
      }
    }
  }

  lemma WholeRanges(x: int, k: nat)
    ensures (x + k * TWO_64) % TWO_16 == x % TWO_16
  {
    assert x + k * TWO_64 == x + (k * 0x1_0000_0000_0000) * TWO_16;
  }

  /** The sum moves by a multiple of 65535 at the first jump only for the largest checksum, and then not at the
      second. */
  lemma FirstJump(m: uint16, base: uint16, m1: int)
    requires base >= 2 && m1 == (m + 1 - base) % TWO_16 && (m1 - m - 1) % 0xFFFF == 0
    ensures base == 0xFFFF && m1 <= 1 && (m + 2 - 2 * base) % TWO_16 == m1 + 2
  {
    assert m1 == if m + 1 >= base then m + 1 - base else m + 1 - base + TWO_16;
  }

  lemma MultiplesDiffer(a: int, b: int)
    requires a % 0xFFFF == 0 && b % 0xFFFF == 0
    ensures (a - b) % 0xFFFF == 0
  {
  }

  lemma WrittenAccepted(p: seq<Instruction>, bin: seq<byte>, from: nat, to: nat, pseudo: nat, off: nat, csum: nat,
                        n: nat, x: int, y: int)
    requires Covered(|bin|, from, to, off, csum) && |p| == 4 && IsPair(p[0], p[1], off) && IsPair(p[2], p[3], csum)
    requires ValueAt(p[0], n) == x && ValueAt(p[2], n) == y && 0 <= y < TWO_16
    ensures Verifies(PacketAt(p, bin, n), from, to, pseudo) <==>
            Accepted(pseudo + WordSum(bin[from..to]) - Word(bin, off) - Word(bin, csum) + x % TWO_16 + y)
  {
    var out := SetWord(SetWord(bin, off, x), csum, y);
    assert PacketAt(p, bin, n) == out by { RunPairs(p, n, bin, off, csum, x, y); }
    assert y % TWO_16 == y by { SmallWord(y); }
    assert WordSum(out[from..to]) == WordSum(bin[from..to]) - Word(bin, off) - Word(bin, csum) + x % TWO_16 + y by {
      TwoWords(bin, from, to, off, csum, x, y);
    }
    VerifiesIffDivisible(out, from, to, pseudo);
  }

  /** No packet keeps its checksum through the first three packets of such a sweep. */
  lemma WrappedSweepFails(bin: seq<byte>, from: nat, to: nat, pseudo: nat, off: nat, csum: nat, min: uint64)
    requires Covered(|bin|, from, to, off, csum) && Word(bin, csum) >= 2 && min + Word(bin, csum) - 1 >= TWO_64
    ensures exists n: nat :: n < 3 &&
              !Verifies(PacketAt(SweepProgram(off, csum, Word(bin, csum), min), bin, n), from, to, pseudo)
  {
    var base: int, p := Word(bin, csum), SweepProgram(off, csum, Word(bin, csum), min);
    var t := pseudo + WordSum(bin[from..to]) - Word(bin, off) - base;
    var x1, x2, s0, s1, s2 := WrappedSums(t, min, base);
    WrappedValues(off, csum, base, min);
    WrittenSum(p, bin, from, to, pseudo, off, csum, 0, min, base, t, s0);
    WrittenSum(p, bin, from, to, pseudo, off, csum, 1, x1, base - 1, t, s1);
    if base >= 3 { WrittenSum(p, bin, from, to, pseudo, off, csum, 2, x2, base - 2, t, s2); }
  }

  lemma WrittenSum(p: seq<Instruction>, bin: seq<byte>, from: nat, to: nat, pseudo: nat, off: nat, csum: nat, n: nat,
                   x: int, y: int, t: int, sum: int)
    requires Covered(|bin|, from, to, off, csum) && |p| == 4 && IsPair(p[0], p[1], off) && IsPair(p[2], p[3], csum)
    requires ValueAt(p[0], n) == x && ValueAt(p[2], n) == y && 0 <= y < TWO_16
    requires t == pseudo + WordSum(bin[from..to]) - Word(bin, off) - Word(bin, csum) && sum == t + x % TWO_16 + y
    ensures Verifies(PacketAt(p, bin, n), from, to, pseudo) <==> Accepted(sum)
  {
    WrittenAccepted(p, bin, from, to, pseudo, off, csum, n, x, y);
  }

  // ----- the theorem, for every minimum

  /** For a packet built with a valid checksum, the sweep keeps it valid for ever exactly when the field runs within 16
      bits and starts at a value congruent to the one the packet was built with. */
  lemma SweepIsValidIff(bin: seq<byte>, from: nat, to: nat, pseudo: nat, off: nat, csum: nat, min: uint64)
    requires Covered(|bin|, from, to, off, csum) && Word(bin, csum) >= 2 && Verifies(bin, from, to, pseudo)
    ensures AlwaysVerifies(SweepProgram(off, csum, Word(bin, csum), min), bin, from, to, pseudo)
            <==> RunsWithin16(min, Word(bin, csum)) && StartsAt(min, Word(bin, off))
  {
    if min + Word(bin, csum) - 1 < TWO_64 {
      BoundedSweepIsValidIff(bin, from, to, pseudo, off, csum, min);
    } else {
      WrappedSweepFails(bin, from, to, pseudo, off, csum, min);
      if RunsWithin16(min, Word(bin, csum)) { Within16DoesNotWrap(min, Word(bin, csum)); }
    }
  }

  /** Whatever checksum the packet was built with: if the field runs within 16 bits, the checksum is right in every
      packet of the run or in none. */
  lemma ValidAtAllStepsOrNone(bin: seq<byte>, from: nat, to: nat, pseudo: nat, off: nat, csum: nat, min: uint64,
                              n1: nat, n2: nat)
    requires Covered(|bin|, from, to, off, csum) && Word(bin, csum) >= 2 && RunsWithin16(min, Word(bin, csum))
    ensures var p := SweepProgram(off, csum, Word(bin, csum), min);
            Verifies(PacketAt(p, bin, n1), from, to, pseudo) <==> Verifies(PacketAt(p, bin, n2), from, to, pseudo)
  {
    var base, total := Word(bin, csum), pseudo + WordSum(bin[from..to]);
    Within16DoesNotWrap(min, base);
    PacketAccepted(bin, from, to, pseudo, off, csum, min, n1);
    PacketAccepted(bin, from, to, pseudo, off, csum, min, n2);
    SumIsConstant(total, Word(bin, off), min, Phase(n1, base));
    SumIsConstant(total, Word(bin, off), min, Phase(n2, base));
  }

  /** Within 16 bits, every packet of the unbounded run has the same one's-complement sum, whatever it was built with.
      */
  lemma SweepSumIsConstant(bin: seq<byte>, from: nat, to: nat, off: nat, csum: nat, min: uint64, n: nat)
    requires Covered(|bin|, from, to, off, csum) && Word(bin, csum) >= 2 && RunsWithin16(min, Word(bin, csum))
    ensures WordSum(PacketAt(SweepProgram(off, csum, Word(bin, csum), min), bin, n)[from..to])
         == WordSum(bin[from..to]) - Word(bin, off) + min % TWO_16
  {
    var base := Word(bin, csum);
    Within16DoesNotWrap(min, base);
    SweepShape(off, csum, base, min);
    ProgramSweeps(SweepProgram(off, csum, base, min), bin, off, csum, base, min, n);
    SweptSum(bin, from, to, off, csum, min, Phase(n, base));
    SumIsConstant(WordSum(bin[from..to]), Word(bin, off), min, Phase(n, base));
  }

  /** With the default minimum, a valid packet stays valid exactly when its field was built as 1024 and its checksum
      leaves room above it; any other source port breaks the checksum. */
  lemma DefaultSweepIsValidIff(bin: seq<byte>, from: nat, to: nat, pseudo: nat, off: nat, csum: nat)
    requires Covered(|bin|, from, to, off, csum) && Word(bin, csum) >= 2 && Verifies(bin, from, to, pseudo)
    ensures AlwaysVerifies(SweepProgram(off, csum, Word(bin, csum), First(None)), bin, from, to, pseudo)
            <==> Word(bin, off) == 1024 && Word(bin, csum) <= 64512
  {
    SweepIsValidIff(bin, from, to, pseudo, off, csum, First(None));
    assert StartsAt(1024, Word(bin, off)) <==> Word(bin, off) == 1024;
  }

  /** A packet with a valid checksum whose compiled sweep, with the default minimum, breaks it: its field is 1025. */
  lemma DefaultSweepBreaks()
    ensures var bin: seq<byte> := [4, 1, 0, 0, 0, 0, 0xFB, 0xFE];
            var built := BuildChecksumSweep(Packet(bin, map[]), Number(0), Number(6), None);
            Verifies(bin, 0, 8, 0) && built.Ok? && !AlwaysVerifies(built.value, bin, 0, 8, 0)
  {
    var bin: seq<byte> := [4, 1, 0, 0, 0, 0, 0xFB, 0xFE];
    assert bin[0..8] == bin;
    FourWords(bin);
    DefaultSweepIsValidIff(bin, 0, 8, 0, 0, 6);
  }

  lemma FourWords(b: seq<byte>)
    requires |b| == 8
    ensures WordSum(b) == Word(b, 0) + Word(b, 2) + Word(b, 4) + Word(b, 6)
  {
    assert WordSum(b[6..]) == Word(b, 6);
    assert b[4..][2..] == b[6..];
    assert WordSum(b[4..]) == Word(b, 4) + Word(b, 6);
    assert b[2..][2..] == b[4..];
  }

  /** The references the shipped profiles use, UDP.sport and UDP.chksum, always give aligned words of the UDP region. */
  lemma UdpSweepIsCovered(pkt: Packet, layers: seq<Layer>, i: nat, to: nat, sport: string, chksum: string)
    requires Tiled(pkt, layers) && IsFirst(layers, UDP, i) && |layers[i].contents| >= 8
    requires StartOf(layers, i) + 8 <= to <= |pkt.binary|
    requires sport == "UDP" + "." + "sport" && chksum == "UDP" + "." + "chksum"
    ensures var udp := StartOf(layers, i);
            && ResolveArg(pkt, Symbol(sport)) == Ok(udp)
            && ResolveArg(pkt, Symbol(chksum)) == Ok(udp + 6)
            && Covered(|pkt.binary|, udp, to, udp, udp + 6)
  {
    UdpNames();
    IndexHas(pkt, layers, UDP, i);
    ResolveJoined(pkt, "UDP", "sport", sport, UDP);
    ResolveJoined(pkt, "UDP", "chksum", chksum, UDP);
  }

  /** From the profile to the wire: for a packet whose outermost UDP layer was built with a valid checksum, a sweep of
      UDP.sport against UDP.chksum compiles exactly when the checksum is at least 2, and the program it compiles to
      keeps the checksum valid for ever exactly when the port runs within 16 bits from the value it was built with. */
  lemma UdpSweepIsValidIff(pkt: Packet, layers: seq<Layer>, i: nat, to: nat, pseudo: nat, sport: string, chksum: string,
                           min: Option<uint64>, m: uint64)
    requires Tiled(pkt, layers) && IsFirst(layers, UDP, i) && |layers[i].contents| >= 8
    requires StartOf(layers, i) + 8 <= to <= |pkt.binary|
    requires sport == "UDP" + "." + "sport" && chksum == "UDP" + "." + "chksum"
    requires Verifies(pkt.binary, StartOf(layers, i), to, pseudo) && IsMinimum(min, m)
    ensures var udp := StartOf(layers, i);
            var port, sum := Word(pkt.binary, udp), Word(pkt.binary, udp + 6);
            var built := BuildChecksumSweep(pkt, Symbol(sport), Symbol(chksum), min);
            && (built.Ok? <==> sum >= 2)
            && (built.Ok? ==> (AlwaysVerifies(built.value, pkt.binary, udp, to, pseudo)
                               <==> RunsWithin16(m, sum) && StartsAt(m, port)))
  {
    var udp := StartOf(layers, i);
    UdpSweepIsCovered(pkt, layers, i, to, sport, chksum);
    Compiles(pkt, Symbol(sport), Symbol(chksum), udp, udp + 6, min);
    if Word(pkt.binary, udp + 6) >= 2 {
      SweepIsValidIff(pkt.binary, udp, to, pseudo, udp, udp + 6, m);
    }
  }

  /** The minimum a profile asks for: the one it gives, or 1024. */
  predicate IsMinimum(min: Option<uint64>, m: uint64) {
    min == Some(m) || (min == None && m == 1024)
  }

  /** What goes out on the wire: packet n of a compiled sweep has the minimum plus n, modulo the checksum it was built
      with, in its field, and the checksum less that in the checksum's place; nothing else changes. The first packet has
      the minimum itself even where the range wraps in 64 bits. */
  lemma SweepOnWire(pkt: Packet, offset: OffsetArg, checksum: OffsetArg, off: nat, csum: nat, min: Option<uint64>,
                    m: uint64, base: uint16, n: nat)
    requires IsOffset(pkt, offset, off) && IsOffset(pkt, checksum, csum) && IsMinimum(min, m)
    requires off + 2 <= |pkt.binary| && csum + 2 <= |pkt.binary| && (off + 2 <= csum || csum + 2 <= off)
    requires base == Word(pkt.binary, csum) && base >= 2 && (n == 0 || m + base - 1 < TWO_64)
    ensures var built := BuildChecksumSweep(pkt, offset, checksum, min);
            && built.Ok?
            && Written(pkt.binary, PacketAt(built.value, pkt.binary, n), off, csum, m + n % base, base - n % base)
  {
    var program := CompilesTo(pkt, offset, checksum, off, csum, min, m);
    SweepWrites(program, pkt.binary, off, csum, base, m, n);
  }

  lemma CompilesTo(pkt: Packet, offset: OffsetArg, checksum: OffsetArg, off: nat, csum: nat, min: Option<uint64>,
                   m: uint64) returns (program: seq<Instruction>)
    requires IsOffset(pkt, offset, off) && IsOffset(pkt, checksum, csum) && IsMinimum(min, m)
    requires csum + 2 <= |pkt.binary| && Word(pkt.binary, csum) >= 2
    ensures program == SweepProgram(off, csum, Word(pkt.binary, csum), m)
    ensures BuildChecksumSweep(pkt, offset, checksum, min) == Ok(program)
  {
    program := SweepProgram(off, csum, Word(pkt.binary, csum), m);
    OffsetResolves(pkt, offset, off);
    OffsetResolves(pkt, checksum, csum);
    Compiles(pkt, offset, checksum, off, csum, min);
  }

  lemma SweepWrites(p: seq<Instruction>, bin: seq<byte>, off: nat, csum: nat, base: uint16, m: uint64, n: nat)
    requires base >= 2 && p == SweepProgram(off, csum, base, m)
    requires off + 2 <= |bin| && csum + 2 <= |bin| && (off + 2 <= csum || csum + 2 <= off)
    requires n == 0 || m + base - 1 < TWO_64
    ensures Written(bin, PacketAt(p, bin, n), off, csum, m + n % base, base - n % base)
  {
    var x, y := SweepValues(off, csum, base, m, n);
    var out := PacketAt(p, bin, n);
    assert out == SetWord(SetWord(bin, off, x), csum, y) by { RunPairs(p, n, bin, off, csum, x, y); }
    TwoWordsWritten(bin, out, off, csum, x, y);
  }

  lemma SweepValues(off: int, csum: int, base: uint16, m: uint64, n: nat) returns (x: int, y: int)
    requires base >= 2 && (n == 0 || m + base - 1 < TWO_64)
    ensures x == m + n % base && y == base - n % base
    ensures var p := SweepProgram(off, csum, base, m);
            && |p| == 4 && IsPair(p[0], p[1], off) && IsPair(p[2], p[3], csum)
            && ValueAt(p[0], n) == x && ValueAt(p[2], n) == y
  {
    x, y := m + n % base, base - n % base;
    if n == 0 {
      ModUnique(0, 0, base);
    } else {
      LockStep(off, csum, base, m, n);
    }
  }

  /** The packet that went out has the low 16 bits of x and y in its two words, and is otherwise the one built. */
  predicate Written(bin: seq<byte>, out: seq<byte>, off: nat, csum: nat, x: int, y: int) {
    && |out| == |bin| && off + 2 <= |bin| && csum + 2 <= |bin|
    && Word(out, off) == x % 65536 && Word(out, csum) == y % 65536
    && forall j :: 0 <= j < |bin| && j != off && j != off + 1 && j != csum && j != csum + 1 ==> out[j] == bin[j]
  }

  lemma TwoWordsWritten(bin: seq<byte>, out: seq<byte>, off: nat, csum: nat, x: int, y: int)
    requires off + 2 <= |bin| && csum + 2 <= |bin| && (off + 2 <= csum || csum + 2 <= off)
    requires out == SetWord(SetWord(bin, off, x), csum, y)
    ensures Written(bin, out, off, csum, x, y)
  {
    OneWordWritten(bin, off, x);
    OneWordWritten(SetWord(bin, off, x), csum, y);
  }

  lemma OneWordWritten(bin: seq<byte>, at: nat, x: int)
    requires at + 2 <= |bin|
    ensures Word(SetWord(bin, at, x), at) == x % TWO_16
    ensures forall j :: 0 <= j < |bin| && j != at && j != at + 1 ==> SetWord(bin, at, x)[j] == bin[j]
  {
    BigEndianWord(x);
  }

  /** What an offset of the profile stands for: a number, a fraction less its fractional part, or the place of a
      field. */
  ghost predicate IsOffset(pkt: Packet, v: OffsetArg, n: int) {
    match v
    case Number(k) => n == k
    case Fraction(x) => if x >= 0.0 then n as real <= x < n as real + 1.0 else n as real - 1.0 < x <= n as real
    case Symbol(ref) => ResolveOffset(pkt, ref) == Ok(n)
    case _ => false
  }

  lemma OffsetResolves(pkt: Packet, v: OffsetArg, n: int)
    requires IsOffset(pkt, v, n)
    ensures ResolveArg(pkt, v) == Ok(n)
  {
  }

  /** An offset stands for a number, or is missing, unusable or a reference that does not resolve; each is reported. */
  lemma OffsetIsOrFails(pkt: Packet, v: OffsetArg) returns (n: int)
    ensures ResolveArg(pkt, v).Ok? <==> IsOffset(pkt, v, n)
    ensures ResolveArg(pkt, v) == Err(MissingOffset) <==> v.Missing?
    ensures ResolveArg(pkt, v) == Err(InvalidOffset) <==> v.Unusable?
    ensures v.Symbol? && ResolveOffset(pkt, v.ref).Err? ==>
              ResolveArg(pkt, v) == Err(BadReference(ResolveOffset(pkt, v.ref).error))
  {
    n := if ResolveArg(pkt, v).Ok? then ResolveArg(pkt, v).value else 0;
  }

  /** With offsets that stand for numbers, exactly when a sweep compiles and which error it gives otherwise; an offset
      that does not is reported first. */
  lemma SweepCompilesIff(pkt: Packet, offset: OffsetArg, checksum: OffsetArg, off: int, csum: int, min: Option<uint64>)
    requires IsOffset(pkt, offset, off) && IsOffset(pkt, checksum, csum)
    ensures var built, size := BuildChecksumSweep(pkt, offset, checksum, min), |pkt.binary|;
            && (built == Err(OutOfRange) <==> csum > size - 2)
            && (built == Err(Panic) <==> csum <= size - 2 && csum < 0)
            && (built == Err(TooSmall) <==> 0 <= csum <= size - 2 && Word(pkt.binary, csum) <= 1)
            && (built.Ok? <==> 0 <= csum <= size - 2 && Word(pkt.binary, csum) > 1)
  {
    OffsetResolves(pkt, offset, off);
    OffsetResolves(pkt, checksum, csum);
  }

  /** A sweep can panic: exactly when both offsets stand for numbers and that of the checksum is negative and
      gets past the range check, as any does in a packet that is not empty. */
  lemma SweepPanicsIff(pkt: Packet, offset: OffsetArg, checksum: OffsetArg, min: Option<uint64>)
    ensures BuildChecksumSweep(pkt, offset, checksum, min) == Err(Panic) <==>
            exists off, csum :: && IsOffset(pkt, offset, off) && IsOffset(pkt, checksum, csum)
                                && csum < 0 && csum + 2 <= |pkt.binary|
  {
    var off := OffsetIsOrFails(pkt, offset);
    var csum := OffsetIsOrFails(pkt, checksum);
    if IsOffset(pkt, offset, off) && IsOffset(pkt, checksum, csum) {
      SweepCompilesIff(pkt, offset, checksum, off, csum, min);
      forall n | IsOffset(pkt, checksum, n) ensures n == csum {
        OffsetResolves(pkt, checksum, n);
        OffsetResolves(pkt, checksum, csum);
      }
    } else {
      forall n ensures !IsOffset(pkt, offset, n) || ResolveArg(pkt, offset).Ok? {
        if IsOffset(pkt, offset, n) { OffsetResolves(pkt, offset, n); }
      }
      forall n ensures !IsOffset(pkt, checksum, n) || ResolveArg(pkt, checksum).Ok? {
        if IsOffset(pkt, checksum, n) { OffsetResolves(pkt, checksum, n); }
      }
    }
  }

  lemma Compiles(pkt: Packet, offset: OffsetArg, checksum: OffsetArg, off: nat, csum: nat, min: Option<uint64>)
    requires ResolveArg(pkt, offset) == Ok(off) && ResolveArg(pkt, checksum) == Ok(csum) && csum + 2 <= |pkt.binary|
    ensures BuildChecksumSweep(pkt, offset, checksum, min) ==
            var base := Word(pkt.binary, csum);
            if base < 2 then Err(TooSmall) else Ok(SweepProgram(off, csum, base, First(min)))
  {
  }

  lemma UdpNames()
    ensures '.' !in "UDP" && AliasName("UDP") == Some(UDP)
    ensures FieldOffset(UDP, "sport") == Some(0) && FieldOffset(UDP, "chksum") == Some(6)
  {
    assert "UDP" in ["UDP", "udp"];
  }
}
