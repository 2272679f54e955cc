/** The headers symbolic references point into, byte by byte: Ethernet and IEEE 802.1Q, IPv4 (section 3.1 of RFC 791),
    IPv6 (section 3 of RFC 8200), UDP (RFC 768) and TCP (section 3.1 of RFC 9293). A reference in pkg/stl/packet.go is
    right if the bytes it leads to are those of the field it names. */
module Headers {
  import opened Prelude
  import opened Packets

  type Bytes4 = s: seq<byte> | |s| == 4 witness [0, 0, 0, 0]
  type Bytes6 = s: seq<byte> | |s| == 6 witness [0, 0, 0, 0, 0, 0]
  type Bytes16 = s: seq<byte> | |s| == 16 witness [0, 0, 0, 0, 0, 0, 0, 0, 0, 0, 0, 0, 0, 0, 0, 0]

  /** Options, where a header has them, end it. */
  datatype Header =
    | EtherHeader(dst: Bytes6, src: Bytes6, etherType: uint16)
    | Dot1QHeader(tci: uint16, etherType: uint16)
    | IPv4Header(versionIhl: byte, tos: byte, len: uint16, id: uint16, flagsFrag: uint16, ttl: byte, proto: byte,
                 chksum: uint16, src4: Bytes4, dst4: Bytes4, options: seq<byte>)
    | IPv6Header(versionClassFlow: Bytes4, payloadLen: uint16, next: byte, hopLimit: byte, src6: Bytes16, dst6: Bytes16)
    | UDPHeader(sport: uint16, dport: uint16, len: uint16, chksum: uint16)
    | TCPHeader(sport: uint16, dport: uint16, seqNo: Bytes4, ackNo: Bytes4, dataOffset: byte, flags: byte,
                window: uint16, chksum: uint16, urgent: uint16, options: seq<byte>)

  function Be(w: uint16): seq<byte> {
    [w / 256, w % 256]
  }

  /** The header on the wire. */
  function Wire(h: Header): seq<byte> {
    match h
    case EtherHeader(dst, src, etherType) => dst + src + Be(etherType)
    case Dot1QHeader(tci, etherType) => Be(tci) + Be(etherType)
    case IPv4Header(versionIhl, tos, len, id, flagsFrag, ttl, proto, chksum, src, dst, options) =>
      [versionIhl, tos] + Be(len) + Be(id) + Be(flagsFrag) + [ttl, proto] + Be(chksum) + src + dst + options
    case IPv6Header(versionClassFlow, payloadLen, next, hopLimit, src, dst) =>
      versionClassFlow + Be(payloadLen) + [next, hopLimit] + src + dst
    case UDPHeader(sport, dport, len, chksum) => Be(sport) + Be(dport) + Be(len) + Be(chksum)
    case TCPHeader(sport, dport, seqNo, ackNo, dataOffset, flags, window, chksum, urgent, options) =>
      Be(sport) + Be(dport) + seqNo + ackNo + [dataOffset, flags] + Be(window) + Be(chksum) + Be(urgent) + options
  }

  function NameOf(h: Header): LayerName {
    match h
    case EtherHeader(_, _, _) => Ether
    case Dot1QHeader(_, _) => Dot1Q
    case IPv4Header(_, _, _, _, _, _, _, _, _, _, _) => IP
    case IPv6Header(_, _, _, _, _, _) => IPv6
    case UDPHeader(_, _, _, _) => UDP
    case TCPHeader(_, _, _, _, _, _, _, _, _, _) => TCP
  }

  /** The field of that name, in Scapy's terms. IPv4's flags and fragment offset share a word, as do a VLAN tag's
      priority and id. */
  function FieldOf(h: Header, field: string): Option<seq<byte>> {
    match h
    case EtherHeader(dst, src, etherType) =>
      if field == "dst" then Some(dst) else if field == "src" then Some(src)
      else if field == "type" then Some(Be(etherType)) else None
    case Dot1QHeader(tci, etherType) =>
      if field == "vlan" then Some(Be(tci)) else if field == "type" then Some(Be(etherType)) else None
    case IPv4Header(_, tos, len, id, flagsFrag, ttl, proto, chksum, src, dst, _) =>
      if field == "tos" then Some([tos]) else if field == "len" then Some(Be(len))
      else if field == "id" then Some(Be(id)) else if field in ["flags", "frag"] then Some(Be(flagsFrag))
      else if field == "ttl" then Some([ttl]) else if field == "proto" then Some([proto])
      else if field == "chksum" then Some(Be(chksum)) else if field == "src" then Some(src)
      else if field == "dst" then Some(dst) else None
    case IPv6Header(_, _, _, _, src, dst) =>
      if field == "src" then Some(src) else if field == "dst" then Some(dst) else None
    case UDPHeader(sport, dport, len, chksum) =>
      if field == "sport" then Some(Be(sport)) else if field == "dport" then Some(Be(dport))
      else if field == "len" then Some(Be(len)) else if field == "chksum" then Some(Be(chksum)) else None
    case TCPHeader(sport, dport, seqNo, ackNo, _, flags, window, chksum, urgent, _) =>
      if field == "sport" then Some(Be(sport)) else if field == "dport" then Some(Be(dport))
      else if field == "seq" then Some(seqNo) else if field == "ack" then Some(ackNo)
      else if field == "flags" then Some([flags]) else if field == "window" then Some(Be(window))
      else if field == "chksum" then Some(Be(chksum)) else if field == "urgptr" then Some(Be(urgent)) else None
  }

  /** The names a profile may call a layer by. */
  function NamesOf(name: LayerName): set<string> {
    match name
    case Ether => {"Ether", "Eth", "eth", "ether"}
    case Dot1Q => {"Dot1Q", "VLAN", "vlan"}
    case IP => {"IP", "IPv4", "ip", "ipv4"}
    case IPv6 => {"IPv6", "ipv6"}
    case UDP => {"UDP", "udp"}
    case TCP => {"TCP", "tcp"}
  }

  lemma NamesAreAliases(alias: string, name: LayerName)
    ensures AliasName(alias) == Some(name) <==> alias in NamesOf(name)
  {
  }

  lemma NamesHaveNoDot(alias: string, name: LayerName)
    requires alias in NamesOf(name)
    ensures '.' !in alias
  {
  }

  /** The field table agrees with the header: it knows the same fields, and each is where the table says. */
  predicate Agrees(h: Header, field: string) {
    var f, b := FieldOffset(NameOf(h), field), FieldOf(h, field);
    && (f.Some? <==> b.Some?)
    && (f.Some? ==> Holds(Wire(h), f.value, b.value))
  }

  lemma EtherAgrees(h: Header, field: string)
    requires h.EtherHeader?
    ensures Agrees(h, field)
  {
  }

  lemma Dot1QAgrees(h: Header, field: string)
    requires h.Dot1QHeader?
    ensures Agrees(h, field)
  {
  }

  lemma IPv4Agrees(h: Header, field: string)
    requires h.IPv4Header?
    ensures Agrees(h, field)
  {
  }

  lemma IPv6Agrees(h: Header, field: string)
    requires h.IPv6Header?
    ensures Agrees(h, field)
  {
  }

  lemma UDPAgrees(h: Header, field: string)
    requires h.UDPHeader?
    ensures Agrees(h, field)
  {
  }

  lemma TCPAgrees(h: Header, field: string)
    requires h.TCPHeader?
    ensures Agrees(h, field)
  {
  }

  lemma TableAgrees(h: Header, field: string)
    ensures Agrees(h, field)
  {
    match h
    case EtherHeader(_, _, _) => EtherAgrees(h, field);
    case Dot1QHeader(_, _) => Dot1QAgrees(h, field);
    case IPv4Header(_, _, _, _, _, _, _, _, _, _, _) => IPv4Agrees(h, field);
    case IPv6Header(_, _, _, _, _, _) => IPv6Agrees(h, field);
    case UDPHeader(_, _, _, _) => UDPAgrees(h, field);
    case TCPHeader(_, _, _, _, _, _, _, _, _, _) => TCPAgrees(h, field);
  }

  /** Layer i begins with this header and is the outermost of its kind. */
  ghost predicate Heads(layers: seq<Layer>, i: nat, h: Header) {
    IsFirst(layers, NameOf(h), i) && Wire(h) <= layers[i].contents
  }

  /** A reference by any name of the layer resolves exactly for the fields the header has, and what is found there in
      the packet is that field of the outermost such header. */
  lemma ReferenceReadsField(p: Packet, layers: seq<Layer>, i: nat, h: Header, alias: string, field: string, ref: string)
    requires Tiled(p, layers) && Heads(layers, i, h) && alias in NamesOf(NameOf(h)) && ref == alias + "." + field
    ensures var r, b := ResolveOffset(p, ref), FieldOf(h, field);
            && (b.None? ==> r == Err(UnknownField))
            && (b.Some? ==> r.Ok? && Holds(p.binary, r.value, b.value))
  {
    NamesAreAliases(alias, NameOf(h));
    NamesHaveNoDot(alias, NameOf(h));
    TableAgrees(h, field);
    var r := ReferenceLeadsTo(p, layers, i, NameOf(h), alias, field, ref);
    if FieldOf(h, field).Some? {
      var f, b := FieldOffset(NameOf(h), field).value, FieldOf(h, field).value;
      PrefixHolds(layers[i].contents, Wire(h), f, b);
      LayerHolds(p.binary, layers, i, f, b);
    }
  }

  lemma PrefixHolds(c: seq<byte>, header: seq<byte>, f: nat, b: seq<byte>)
    requires header <= c && Holds(header, f, b)
    ensures Holds(c, f, b)
  {
  }

  /** A bare layer name leads to where the outermost such layer begins, whatever it holds. */
  lemma BareNameFindsLayer(p: Packet, layers: seq<Layer>, i: nat, name: LayerName, alias: string)
    requires Tiled(p, layers) && IsFirst(layers, name, i) && alias in NamesOf(name)
    ensures var r := ResolveOffset(p, alias);
            && r == Ok(|Flatten(layers[..i])|) && Holds(p.binary, r.value, layers[i].contents)
  {
    NamesAreAliases(alias, name);
    NamesHaveNoDot(alias, name);
    assert CutDot(alias) == Cut(alias, "", false) by { CutWithoutDot(alias); }
    IndexHas(p, layers, name, i);
    LayerHolds(p.binary, layers, i, 0, layers[i].contents);
  }

  lemma {:induction false} CutWithoutDot(s: string)
    requires '.' !in s
    ensures CutDot(s) == Cut(s, "", false)
    decreases |s|
  {
    if s != "" {
      CutWithoutDot(s[1..]);
      assert [s[0]] + s[1..] == s;
    }
  }

  /** Which error a reference gives: the layer has no such name, or the packet has no such layer. */
  lemma BadLayerIsReported(p: Packet, layers: seq<Layer>, ref: string)
    requires Tiled(p, layers)
    ensures var alias := CutDot(ref).before;
            && (ResolveOffset(p, ref) == Err(UnknownLayer) <==> forall name :: alias !in NamesOf(name))
            && (ResolveOffset(p, ref) == Err(AbsentLayer) <==>
                exists name :: && alias in NamesOf(name)
                               && forall i :: 0 <= i < |layers| ==> layers[i].kind != Known(name))
  {
    var alias := CutDot(ref).before;
    forall name ensures AliasName(alias) == Some(name) <==> alias in NamesOf(name) {
      NamesAreAliases(alias, name);
    }
    forall name ensures name in p.layerStarts <==> exists i :: 0 <= i < |layers| && layers[i].kind == Known(name) {
      if i :| 0 <= i < |layers| && layers[i].kind == Known(name) {
        EarliestExists(layers, name, i);
      }
    }
  }
}
