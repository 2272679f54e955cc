/** The imix shortcut (buildImix in pkg/stl/dsl/dsl.go): one stream per weighted frame size, splitting the base rate. */
module Imix {
  import opened Prelude
  import opened Text
  import opened Headers

  datatype Row = Row(size: int, weight: real, pgid: Option<int>)

  datatype Stream = Stream(name: string, rate: real, payloadSize: int, pgid: Option<int>)

  datatype ImixError = ZeroWeights | BadMode | BadPacket(i: nat)

  function LayerHeaderLen(kind: string): nat {
    if kind == "eth" then 14
    else if kind == "dot1q" then 4
    else if kind == "ip" then 20
    else if kind == "ipv6" then 40
    else if kind == "udp" then 8
    else if kind == "tcp" then 20
    else 0
  }

  function HeaderSum(kinds: seq<string>): nat {
    if kinds == [] then 0 else HeaderSum(kinds[..|kinds| - 1]) + LayerHeaderLen(kinds[|kinds| - 1])
  }

  /** The payload that fills a frame up to its size. */
  function Fill(size: int, header: nat): nat {
    if size < header then 0 else size - header
  }

  method HeaderLen(kinds: seq<string>) returns (total: nat)
    ensures total == HeaderSum(kinds)
  {
    total := 0;
    for i := 0 to |kinds|
      invariant total == HeaderSum(kinds[..i])
    {
      assert kinds[..i + 1][..i] == kinds[..i];
      total := total + LayerHeaderLen(kinds[i]);
    }
    assert kinds[..|kinds|] == kinds;
  }

  /** The payload fills the frame up to the target size, or is empty when the headers already exceed it. */
  method PayloadForSize(target: int, kinds: seq<string>) returns (payload: nat)
    ensures payload == Fill(target, HeaderSum(kinds))
    ensures HeaderSum(kinds) + payload == if target < HeaderSum(kinds) then HeaderSum(kinds) else target
  {
    var hdr := HeaderLen(kinds);
    if target - hdr < 0 {
      return 0;
    }
    payload := target - hdr;
  }

  function WeightSum(rows: seq<Row>): real {
    if rows == [] then 0.0 else WeightSum(rows[..|rows| - 1]) + rows[|rows| - 1].weight
  }

  function RateSum(streams: seq<Stream>): real {
    if streams == [] then 0.0 else RateSum(streams[..|streams| - 1]) + streams[|streams| - 1].rate
  }

  /** A row's share of the base rate. */
  function Share(base: real, total: real): real -> real
    requires total != 0.0
  {
    w => base * (w / total)
  }

  function RowName(name: string, i: nat): string {
    (if name == "" then "imix" else name) + "_" + Decimal(i)
  }

  /** The stream of row i: its own name and tag, its share of the rate, and a frame of the row's size unless the headers
      alone are longer. */
  ghost predicate IsRow(s: Stream, name: string, i: nat, row: Row, header: nat, share: real -> real) {
    && s.name == (if name == "" then "imix" else name) + "_" + Decimal(i)
    && s.pgid == row.pgid && s.rate == share(row.weight)
    && header + s.payloadSize == if row.size < header then header else row.size
  }

  ghost predicate AreRows(streams: seq<Stream>, name: string, rows: seq<Row>, header: nat, share: real -> real) {
    |streams| == |rows| && forall i :: 0 <= i < |rows| ==> IsRow(streams[i], name, i, rows[i], header, share)
  }

  /** The packets of the first n rows can be built. */
  predicate BuildUpTo(rows: seq<Row>, header: nat, builds: nat -> bool, n: nat) {
    n <= |rows| && forall j :: 0 <= j < n ==> builds(Fill(rows[j].size, header))
  }

  /** What an imix entry expands to: its rows, whose rates add up to the base rate, or the first error found. */
  ghost predicate IsExpansion(name: string, rows: seq<Row>, kinds: seq<string>, mode: Option<real>, builds: nat -> bool,
                              r: Result<seq<Stream>, ImixError>)
  {
    match r
    case Err(ZeroWeights) => WeightSum(rows) == 0.0
    case Err(BadMode) => WeightSum(rows) != 0.0 && mode.None?
    case Err(BadPacket(i)) =>
      && WeightSum(rows) != 0.0 && mode.Some? && BuildUpTo(rows, HeaderSum(kinds), builds, i)
      && i < |rows| && !builds(Fill(rows[i].size, HeaderSum(kinds)))
    case Ok(streams) =>
      && BuildUpTo(rows, HeaderSum(kinds), builds, |rows|)
      && WeightSum(rows) != 0.0 && mode.Some? && RateSum(streams) == mode.value
      && AreRows(streams, name, rows, HeaderSum(kinds), Share(mode.value, WeightSum(rows)))
  }

  /** `mode` is the entry's base rate, or an invalid mode; `builds` says for which payload sizes the entry's packet and
      field-engine program can be built. */
  method BuildImix(name: string, rows: seq<Row>, kinds: seq<string>, mode: Option<real>, builds: nat -> bool)
    returns (r: Result<seq<Stream>, ImixError>)
    ensures IsExpansion(name, rows, kinds, mode, builds, r)
  {
    var total := TotalWeight(rows);
    if total == 0.0 { return Err(ZeroWeights); }
    if mode.None? { return Err(BadMode); }
    var out, bad := BuildRows(name, rows, kinds, Share(mode.value, total), builds);
    if bad.Some? { return Err(BadPacket(bad.value)); }
    RateIsConserved(mode.value, name, rows, HeaderSum(kinds), out);
    r := Ok(out);
  }

  /** `bad` is the first row whose packet cannot be built. */
  method BuildRows(name: string, rows: seq<Row>, kinds: seq<string>, share: real -> real, builds: nat -> bool)
    returns (out: seq<Stream>, bad: Option<nat>)
    ensures bad.None? ==> AreRows(out, name, rows, HeaderSum(kinds), share)
    ensures var good := if bad.Some? then bad.value else |rows|;
            && BuildUpTo(rows, HeaderSum(kinds), builds, good)
            && (bad.Some? ==> good < |rows| && !builds(Fill(rows[good].size, HeaderSum(kinds))))
  {
    out, bad := [], None;
    for i := 0 to |rows|
      invariant |out| == i && bad.None?
      invariant BuildUpTo(rows, HeaderSum(kinds), builds, i)
      invariant forall j :: 0 <= j < i ==> IsRow(out[j], name, j, rows[j], HeaderSum(kinds), share)
    {
      var payload := PayloadForSize(rows[i].size, kinds);
      if !builds(payload) {
        bad := Some(i);
        return;
      }
      out := out + [Stream(RowName(name, i), share(rows[i].weight), payload, rows[i].pgid)];
    }
  }

  method TotalWeight(rows: seq<Row>) returns (total: real)
    ensures total == WeightSum(rows)
  {
    total := 0.0;
    for i := 0 to |rows|
      invariant total == WeightSum(rows[..i])
    {
      assert rows[..i + 1][..i] == rows[..i];
      total := total + rows[i].weight;
    }
    assert rows[..|rows|] == rows;
  }

  // ----- conservation of the rate

  lemma ShareIsAdditive(base: real, total: real)
    requires total != 0.0
    ensures Additive(Share(base, total))
  {
    forall a, b ensures AddsAt(Share(base, total), a, b) {
      ShareSplits(base, total, a, b);
    }
  }

  lemma ShareSplits(base: real, total: real, a: real, b: real)
    requires total != 0.0
    ensures base * ((a + b) / total) == base * (a / total) + base * (b / total)
  {
    assert (a + b) / total == a / total + b / total;
  }

  lemma WholeShare(base: real, total: real)
    requires total != 0.0
    ensures Share(base, total)(total) == base
  {
    assert total / total == 1.0;
  }

  /** Whatever the weights, the rates of the rows are the rate of the sum of the weights. */
  lemma {:induction false} RatesAddUp(rows: seq<Row>, streams: seq<Stream>, f: real -> real)
    requires |rows| == |streams| && Additive(f)
    requires forall i :: 0 <= i < |rows| ==> streams[i].rate == f(rows[i].weight)
    ensures RateSum(streams) == f(WeightSum(rows))
    decreases |rows|
  {
    if rows != [] {
      var n := |rows| - 1;
      RatesAddUp(rows[..n], streams[..n], f);
      assert AddsAt(f, WeightSum(rows[..n]), rows[n].weight);
    }
  }

  /** The row rates add up to the base rate for every weight list with a non-zero sum, negative weights included. */
  lemma RateIsConserved(base: real, name: string, rows: seq<Row>, header: nat, streams: seq<Stream>)
    requires WeightSum(rows) != 0.0 && AreRows(streams, name, rows, header, Share(base, WeightSum(rows)))
    ensures RateSum(streams) == base
  {
    ShareIsAdditive(base, WeightSum(rows));
    RatesAddUp(rows, streams, Share(base, WeightSum(rows)));
    WholeShare(base, WeightSum(rows));
  }

  /** Rows get distinct names, so an imix entry on its own never collides with itself. */
  lemma RowNamesDistinct(name: string, i: nat, j: nat)
    requires RowName(name, i) == RowName(name, j)
    ensures i == j
  {
    var prefix := (if name == "" then "imix" else name) + "_";
    assert RowName(name, i)[|prefix|..] == Decimal(i);
    assert RowName(name, j)[|prefix|..] == Decimal(j);
    DecimalInjective(i, j);
  }

  // ----- how long the frames come out

  /** A layer of a packet: a header of the table, without options, or one it does not know, such as vxlan or srh. */
  datatype Part = Listed(h: Header) | Unlisted(kind: string, bytes: seq<byte>)

  predicate IsPart(p: Part) {
    match p
    case Listed(h) => (h.IPv4Header? || h.TCPHeader?) ==> h.options == []
    case Unlisted(kind, _) => kind !in {"eth", "dot1q", "ip", "ipv6", "udp", "tcp"}
  }

  /** What a profile calls the layer. */
  function KindOf(p: Part): string {
    match p
    case Unlisted(kind, _) => kind
    case Listed(h) =>
      match h
      case EtherHeader(_, _, _) => "eth"
      case Dot1QHeader(_, _) => "dot1q"
      case IPv4Header(_, _, _, _, _, _, _, _, _, _, _) => "ip"
      case IPv6Header(_, _, _, _, _, _) => "ipv6"
      case UDPHeader(_, _, _, _) => "udp"
      case TCPHeader(_, _, _, _, _, _, _, _, _, _) => "tcp"
  }

  function KindsOf(parts: seq<Part>): seq<string> {
    seq(|parts|, i requires 0 <= i < |parts| => KindOf(parts[i]))
  }

  /** The layers one after the other, and how much of that the table does not know. */
  function Stack(parts: seq<Part>): seq<byte> {
    if parts == [] then [] else
      var last := parts[|parts| - 1];
      Stack(parts[..|parts| - 1]) + (if last.Listed? then Wire(last.h) else last.bytes)
  }

  function UnlistedBytes(parts: seq<Part>): nat {
    if parts == [] then 0 else
      var last := parts[|parts| - 1];
      UnlistedBytes(parts[..|parts| - 1]) + if last.Listed? then 0 else |last.bytes|
  }

  lemma {:induction false} StackLength(parts: seq<Part>)
    requires forall i :: 0 <= i < |parts| ==> IsPart(parts[i])
    ensures HeaderSum(KindsOf(parts)) + UnlistedBytes(parts) == |Stack(parts)|
    decreases |parts|
  {
    if parts != [] {
      var n := |parts| - 1;
      StackLength(parts[..n]);
      assert KindsOf(parts)[..n] == KindsOf(parts[..n]);
      PartLength(parts[n]);
    }
  }

  lemma PartLength(p: Part)
    requires IsPart(p)
    ensures LayerHeaderLen(KindOf(p)) == if p.Listed? then |Wire(p.h)| else 0
  {
  }

  /** On the wire, a row whose layers leave room comes out at its size exactly when the table knows all of them that are
      not empty; otherwise its frames are longer by the rest. */
  lemma FrameHasRowSizeIff(parts: seq<Part>, s: Stream, name: string, i: nat, row: Row, share: real -> real)
    requires (forall i :: 0 <= i < |parts| ==> IsPart(parts[i])) && row.size >= |Stack(parts)|
    requires IsRow(s, name, i, row, HeaderSum(KindsOf(parts)), share)
    ensures |Stack(parts)| + s.payloadSize == row.size + UnlistedBytes(parts)
    ensures |Stack(parts)| + s.payloadSize == row.size <==>
            forall j :: 0 <= j < |parts| && parts[j].Unlisted? ==> parts[j].bytes == []
  {
    StackLength(parts);
    NoneUnlisted(parts);
  }

  lemma {:induction false} NoneUnlisted(parts: seq<Part>)
    ensures UnlistedBytes(parts) == 0 <==> forall j :: 0 <= j < |parts| && parts[j].Unlisted? ==> parts[j].bytes == []
    decreases |parts|
  {
    if parts != [] {
      var n := |parts| - 1;
      NoneUnlisted(parts[..n]);
      assert forall j :: 0 <= j < n ==> parts[..n][j] == parts[j];
    }
  }
}
