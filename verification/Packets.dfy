/** Built packets and symbolic field references (pkg/stl/packet.go). A decoded packet is a list of layers whose
    contents tile its bytes. */
module Packets {
  import opened Prelude

  /** The client's canonical layer names. */
  datatype LayerName = Ether | Dot1Q | IP | IPv6 | UDP | TCP

  /** The decoder's layer types: those with a canonical name, and all others. */
  datatype LayerType = Known(name: LayerName) | Other

  datatype Layer = Layer(kind: LayerType, contents: seq<byte>)

  datatype Packet = Packet(binary: seq<byte>, layerStarts: map<LayerName, nat>)

  datatype RefError = UnknownLayer | AbsentLayer | UnknownField

  function CanonicalName(t: LayerType): Option<LayerName> {
    match t case Known(name) => Some(name) case Other => None
  }

  function AliasName(name: string): Option<LayerName> {
    if name in ["Ether", "Eth", "eth", "ether"] then Some(Ether)
    else if name in ["Dot1Q", "VLAN", "vlan"] then Some(Dot1Q)
    else if name in ["IP", "IPv4", "ip", "ipv4"] then Some(IP)
    else if name in ["IPv6", "ipv6"] then Some(IPv6)
    else if name in ["UDP", "udp"] then Some(UDP)
    else if name in ["TCP", "tcp"] then Some(TCP)
    else None
  }

  /** Every layer name has a field table. */
  function FieldTable(name: LayerName): map<string, nat> {
    match name
    case Ether => map["dst" := 0, "src" := 6, "type" := 12]
    case Dot1Q => map["vlan" := 0, "type" := 2]
    case IP => map["tos" := 1, "len" := 2, "id" := 4, "flags" := 6, "frag" := 6,
                   "ttl" := 8, "proto" := 9, "chksum" := 10, "src" := 12, "dst" := 16]
    case IPv6 => map["src" := 8, "dst" := 24]
    case UDP => map["sport" := 0, "dport" := 2, "len" := 4, "chksum" := 6]
    case TCP => map["sport" := 0, "dport" := 2, "seq" := 4, "ack" := 8,
                    "flags" := 13, "window" := 14, "chksum" := 16, "urgptr" := 18]
  }

  function FieldOffset(name: LayerName, field: string): Option<nat> {
    if field in FieldTable(name) then Some(FieldTable(name)[field]) else None
  }

  // ----- layers and the bytes they tile

  function Flatten(layers: seq<Layer>): seq<byte> {
    if layers == [] then [] else layers[0].contents + Flatten(layers[1..])
  }

  /** Byte offset of layer i. */
  function StartOf(layers: seq<Layer>, i: nat): nat
    requires i <= |layers|
  {
    |Flatten(layers[..i])|
  }

  predicate IsNamed(l: Layer, name: LayerName) {
    CanonicalName(l.kind) == Some(name)
  }

  /** i is the outermost layer with the given canonical name. */
  predicate IsFirst(layers: seq<Layer>, name: LayerName, i: nat) {
    i < |layers| && IsNamed(layers[i], name) && forall j :: 0 <= j < i ==> !IsNamed(layers[j], name)
  }

  /** The index records exactly the outermost layer of every name that occurs. */
  ghost predicate Indexes(starts: map<LayerName, nat>, layers: seq<Layer>) {
    && (forall name :: name in starts <==> exists i :: IsFirst(layers, name, i))
    && (forall name, i :: IsFirst(layers, name, i) ==> name in starts && starts[name] == StartOf(layers, i))
  }

  lemma {:induction false} FlattenAppend(a: seq<Layer>, b: seq<Layer>)
    ensures Flatten(a + b) == Flatten(a) + Flatten(b)
    decreases |a|
  {
    if a == [] {
      assert a + b == b;
    } else {
      FlattenAppend(a[1..], b);
      assert (a + b)[1..] == a[1..] + b && (a + b)[0] == a[0];
    }
  }

  lemma FlattenOne(layers: seq<Layer>, i: nat)
    requires i < |layers|
    ensures Flatten(layers[..i + 1]) == Flatten(layers[..i]) + layers[i].contents
  {
    FlattenAppend(layers[..i], [layers[i]]);
    assert layers[..i + 1] == layers[..i] + [layers[i]];
    assert [layers[i]][1..] == [];
    assert Flatten([layers[i]]) == layers[i].contents + [];
  }

  lemma FlattenSplit(layers: seq<Layer>, i: nat)
    requires i < |layers|
    ensures Flatten(layers) == Flatten(layers[..i]) + layers[i].contents + Flatten(layers[i + 1..])
  {
    var head, tail := layers[..i + 1], layers[i + 1..];
    FlattenOne(layers, i);
    FlattenJoined(layers, head, tail);
  }

  lemma FlattenJoined(layers: seq<Layer>, head: seq<Layer>, tail: seq<Layer>)
    requires |head| <= |layers| && head == layers[..|head|] && tail == layers[|head|..]
    ensures Flatten(layers) == Flatten(head) + Flatten(tail)
  {
    assert layers == head + tail;
    FlattenAppend(head, tail);
  }

  /** Records the offset at which each recognized layer begins, keeping the first of each name. */
  method DecodeLayerStarts(layers: seq<Layer>) returns (starts: map<LayerName, nat>)
    ensures Indexes(starts, layers)
  {
    starts := map[];
    var offset: nat := 0;
    for i := 0 to |layers|
      invariant offset == StartOf(layers, i)
      invariant forall name :: name in starts <==> exists j: nat :: j < i && IsFirst(layers, name, j)
      invariant forall name, j: nat :: j < i && IsFirst(layers, name, j) ==>
                  name in starts && starts[name] == StartOf(layers, j)
    {
      FlattenOne(layers, i);
      var name := CanonicalName(layers[i].kind);
      ghost var before := starts;
      if name.Some? && name.value !in starts {
        EarliestExists(layers, name.value, i);
        starts := starts[name.value := offset];
      } else if name.Some? {
        assert !IsFirst(layers, name.value, i);
      }
      assert forall n :: IsFirst(layers, n, i) ==> name == Some(n);
      offset := offset + |layers[i].contents|;
    }
  }

  /** Any layer of a name is preceded by, or is, the first one of that name. */
  lemma {:induction false} EarliestExists(layers: seq<Layer>, name: LayerName, i: nat)
    requires i < |layers| && IsNamed(layers[i], name)
    ensures exists j: nat :: j <= i && IsFirst(layers, name, j)
    decreases i
  {
    if j :| 0 <= j < i && IsNamed(layers[j], name) {
      EarliestExists(layers, name, j);
    } else {
      assert IsFirst(layers, name, i);
    }
  }

  // ----- references

  datatype Cut = Cut(before: string, after: string, found: bool)

  /** strings.Cut at the first dot. */
  function CutDot(s: string): (c: Cut)
    ensures '.' !in c.before
    ensures c.found ==> s == c.before + "." + c.after
    ensures !c.found ==> s == c.before
  {
    if s == "" then Cut("", "", false)
    else if s[0] == '.' then Cut("", s[1..], true)
    else var c := CutDot(s[1..]); Cut([s[0]] + c.before, c.after, c.found)
  }

  lemma {:induction false} CutJoined(layer: string, field: string)
    requires '.' !in layer
    ensures CutDot(layer + "." + field) == Cut(layer, field, true)
    decreases |layer|
  {
    if layer == "" {
      assert (layer + "." + field)[1..] == field;
    } else {
      CutJoined(layer[1..], field);
      assert (layer + "." + field)[1..] == layer[1..] + "." + field;
    }
  }

  function ResolveOffset(p: Packet, ref: string): Result<nat, RefError> {
    var c := CutDot(ref);
    var canon := AliasName(c.before);
    if canon.None? then Err(UnknownLayer)
    else if canon.value !in p.layerStarts then Err(AbsentLayer)
    else if !c.found then Ok(p.layerStarts[canon.value])
    else match FieldOffset(canon.value, c.after)
         case Some(f) => Ok(p.layerStarts[canon.value] + f)
         case None => Err(UnknownField)
  }

  /** The packet's bytes are those of its layers, and its index was computed from them. */
  ghost predicate Tiled(p: Packet, layers: seq<Layer>) {
    p.binary == Flatten(layers) && Indexes(p.layerStarts, layers)
  }

  /** From `at` on, the bytes are these. */
  predicate Holds(bytes: seq<byte>, at: nat, b: seq<byte>) {
    at + |b| <= |bytes| && forall k :: 0 <= k < |b| ==> bytes[at + k] == b[k]
  }

  /** A resolved reference points at byte f of layer i: whatever the layer holds there the packet holds there. Without f
      nothing is resolved. */
  predicate Points(r: Result<nat, RefError>, bytes: seq<byte>, layers: seq<Layer>, i: nat, f: Option<nat>, b: seq<byte>)
    requires i < |layers|
  {
    && (r.Ok? <==> f.Some?)
    && (r.Ok? ==> r.value == StartOf(layers, i) + f.value)
    && (r.Ok? && Holds(layers[i].contents, f.value, b) ==> Holds(bytes, r.value, b))
  }

  /** A reference resolves exactly when its layer and field are known and present, and then to the field's position in
      the outermost layer of that kind: any bytes of the field inside the layer are found there. */
  lemma ResolvesToField(p: Packet, layers: seq<Layer>, alias: string, field: string, i: nat,
                        b: seq<byte>, ref: string, canon: LayerName)
    requires Tiled(p, layers) && '.' !in alias && ref == alias + "." + field
    requires AliasName(alias) == Some(canon) && IsFirst(layers, canon, i)
    ensures Points(ResolveOffset(p, ref), p.binary, layers, i, FieldOffset(canon, field), b)
  {
    var r := ReferenceLeadsTo(p, layers, i, canon, alias, field, ref);
    PointsInto(r, p.binary, layers, i, FieldOffset(canon, field), b);
  }

  /** Where a reference to a field leads. */
  lemma ReferenceLeadsTo(p: Packet, layers: seq<Layer>, i: nat, name: LayerName, alias: string, field: string,
                         ref: string)
    returns (r: Result<nat, RefError>)
    requires Tiled(p, layers) && IsFirst(layers, name, i) && ref == alias + "." + field
    requires AliasName(alias) == Some(name) && '.' !in alias
    ensures r == ResolveOffset(p, ref)
    ensures var f := FieldOffset(name, field);
            r == if f.Some? then Ok(StartOf(layers, i) + f.value) else Err(UnknownField)
  {
    r := ResolveOffset(p, ref);
    assert name in p.layerStarts && p.layerStarts[name] == StartOf(layers, i) by { IndexHas(p, layers, name, i); }
    ResolveJoined(p, alias, field, ref, name);
  }

  lemma IndexHas(p: Packet, layers: seq<Layer>, canon: LayerName, i: nat)
    requires Tiled(p, layers) && IsFirst(layers, canon, i)
    ensures canon in p.layerStarts && p.layerStarts[canon] == StartOf(layers, i)
  {
  }

  lemma ResolveJoined(p: Packet, alias: string, field: string, ref: string, canon: LayerName)
    requires '.' !in alias && ref == alias + "." + field && AliasName(alias) == Some(canon) && canon in p.layerStarts
    ensures var f := FieldOffset(canon, field);
            ResolveOffset(p, ref) == if f.Some? then Ok(p.layerStarts[canon] + f.value)
                                     else Err(UnknownField)
  {
    CutJoined(alias, field);
  }

  lemma PointsInto(r: Result<nat, RefError>, bytes: seq<byte>, layers: seq<Layer>, i: nat, f: Option<nat>,
                   b: seq<byte>)
    requires i < |layers| && bytes == Flatten(layers)
    requires if f.Some? then r == Ok(StartOf(layers, i) + f.value) else r.Err?
    ensures Points(r, bytes, layers, i, f, b)
  {
    if f.Some? && Holds(layers[i].contents, f.value, b) {
      LayerHolds(bytes, layers, i, f.value, b);
    }
  }

  /** What a layer holds is found in the packet at the same distance from where the layer begins. */
  lemma LayerHolds(bytes: seq<byte>, layers: seq<Layer>, i: nat, f: nat, b: seq<byte>)
    requires i < |layers| && bytes == Flatten(layers) && Holds(layers[i].contents, f, b)
    ensures Holds(bytes, StartOf(layers, i) + f, b)
  {
    var before, c, after := Flatten(layers[..i]), layers[i].contents, Flatten(layers[i + 1..]);
    assert bytes == before + c + after by { FlattenSplit(layers, i); }
    MiddleHolds(before, c, after, f, b);
  }

  lemma MiddleHolds(before: seq<byte>, c: seq<byte>, after: seq<byte>, f: nat, b: seq<byte>)
    requires Holds(c, f, b)
    ensures Holds(before + c + after, |before| + f, b)
  {
  }

  /** A layer that does not occur cannot be referred to. */
  lemma AbsentLayerFails(p: Packet, layers: seq<Layer>, ref: string)
    requires Tiled(p, layers)
    requires forall i :: 0 <= i < |layers| ==> CanonicalName(layers[i].kind) != AliasName(CutDot(ref).before)
    ensures ResolveOffset(p, ref).Err?
  {
    var canon := AliasName(CutDot(ref).before);
    if canon.Some? {
      assert forall i :: !IsFirst(layers, canon.value, i);
    }
  }

  function Overwrite(bytes: seq<byte>, at: nat, w: seq<byte>): seq<byte>
    requires at + |w| <= |bytes|
  {
    bytes[..at] + w + bytes[at + |w|..]
  }

  /** Writing within the layer a reference points into changes that layer and no other. */
  lemma WriteStaysInLayer(p: Packet, layers: seq<Layer>, i: nat, f: nat, w: seq<byte>)
    requires Tiled(p, layers) && i < |layers| && f + |w| <= |layers[i].contents|
    ensures StartOf(layers, i) + f + |w| <= |p.binary|
    ensures Overwrite(p.binary, StartOf(layers, i) + f, w)
         == Flatten(layers[i := layers[i].(contents := Overwrite(layers[i].contents, f, w))])
  {
    FlattenSplit(layers, i);
    var c := layers[i].contents;
    var layers' := layers[i := layers[i].(contents := Overwrite(c, f, w))];
    FlattenSplit(layers', i);
    assert layers'[..i] == layers[..i] && layers'[i + 1..] == layers[i + 1..];
    OverwriteMiddle(Flatten(layers[..i]), c, Flatten(layers[i + 1..]), f, w);
  }

  lemma OverwriteMiddle(a: seq<byte>, c: seq<byte>, b: seq<byte>, f: nat, w: seq<byte>)
    requires f + |w| <= |c|
    ensures Overwrite(a + c + b, |a| + f, w) == a + Overwrite(c, f, w) + b
  {
    assert (a + c + b)[..|a| + f] == a + c[..f];
    assert (a + c + b)[|a| + f + |w|..] == c[f + |w|..] + b;
  }
}
