/** The SRv6 Segment Routing Header codec (pkg/stl/dsl/srh.go; section 2 of RFC 8754). */
module Srh {
  import opened Prelude

  type Segment = s: seq<byte> | |s| == 16 witness [0, 0, 0, 0, 0, 0, 0, 0, 0, 0, 0, 0, 0, 0, 0, 0]

  /** Segments are in wire order: the last segment of the path first. */
  datatype Header = Header(nextHeader: byte, segmentsLeft: byte, lastEntry: byte, flags: byte, tag: uint16,
                           segments: seq<Segment>)

  datatype Decoded = Decoded(header: Header, contents: seq<byte>, payload: seq<byte>)

  datatype DecodeError = TooShort | Truncated

  const ROUTING_TYPE: byte := 4

  // ----- what the bytes are

  function Segments(segments: seq<Segment>): (b: seq<byte>)
    ensures |b| == 16 * |segments|
  {
    if segments == [] then [] else segments[0] + Segments(segments[1..])
  }

  function Fixed(h: Header): (b: seq<byte>)
    ensures |b| == 8
  {
    [h.nextHeader, (2 * |h.segments|) % 256, ROUTING_TYPE, h.segmentsLeft, h.lastEntry, h.flags,
     h.tag / 256, h.tag % 256]
  }

  function Encode(h: Header): (b: seq<byte>)
    ensures |b| == 8 + 16 * |h.segments|
  {
    Fixed(h) + Segments(h.segments)
  }

  /** As many whole segments as fit in the bytes. */
  function SplitSegments(b: seq<byte>): (s: seq<Segment>)
    ensures |s| == |b| / 16
  {
    if |b| < 16 then [] else [b[..16]] + SplitSegments(b[16..])
  }

  function TotalLength(hdrExtLen: byte): nat {
    (hdrExtLen as int + 1) * 8
  }

  function Decode(data: seq<byte>): Result<Decoded, DecodeError> {
    if |data| < 8 then Err(TooShort)
    else if |data| < TotalLength(data[1]) then Err(Truncated)
    else
      var total := TotalLength(data[1]);
      Ok(Decoded(Header(data[0], data[3], data[4], data[5], data[6] as int * 256 + data[7],
                        SplitSegments(data[8..total])),
                 data[..total], data[total..]))
  }

  // ----- the code, in place

  /** Fills the bytes that were prepended to the packet for this header. */
  method SerializeTo(h: Header, bytes: array<byte>)
    requires bytes.Length == 8 + |h.segments| * 16
    modifies bytes
    ensures bytes[..] == Encode(h)
  {
    WriteFixed(h, bytes);
    for i := 0 to |h.segments|
      invariant bytes[..8 + 16 * i] == Fixed(h) + Segments(h.segments[..i])
    {
      ghost var done := bytes[..8 + 16 * i];
      CopySegment(bytes, 8 + 16 * i, h.segments[i]);
      SegmentsAppend(h.segments[..i], h.segments[i]);
      assert h.segments[..i + 1] == h.segments[..i] + [h.segments[i]];
      assert bytes[..8 + 16 * (i + 1)] == done + h.segments[i];
    }
    assert h.segments[..|h.segments|] == h.segments;
    assert bytes[..8 + 16 * |h.segments|] == bytes[..];
  }

  /** The first eight bytes; the length counts 8-octet units after them. */
  method WriteFixed(h: Header, bytes: array<byte>)
    requires bytes.Length == 8 + |h.segments| * 16
    modifies bytes
    ensures bytes[..8] == Fixed(h)
  {
    bytes[0] := h.nextHeader;
    bytes[1] := ((bytes.Length - 8) / 8) % 256;
    bytes[2] := 4;
    bytes[3] := h.segmentsLeft;
    bytes[4] := h.lastEntry;
    bytes[5] := h.flags;
    bytes[6], bytes[7] := h.tag / 256, h.tag % 256;
  }

  method CopySegment(bytes: array<byte>, at: nat, s: Segment)
    requires at + 16 <= bytes.Length
    modifies bytes
    ensures bytes[..at] == old(bytes[..at]) && bytes[at..at + 16] == s
  {
    for j := 0 to 16
      invariant bytes[..at] == old(bytes[..at])
      invariant bytes[at..at + j] == s[..j]
    {
      bytes[at + j] := s[j];
      assert bytes[at..at + j + 1] == bytes[at..at + j] + [s[j]];
    }
  }

  method DecodeSRH(data: seq<byte>) returns (r: Result<Decoded, DecodeError>)
    ensures r == Decode(data)
  {
    if |data| < 8 { return Err(TooShort); }
    var total := (data[1] as int + 1) * 8;
    if |data| < total { return Err(Truncated); }
    var segments := ReadSegments(data, total);
    r := Ok(Decoded(Header(data[0], data[3], data[4], data[5], data[6] as int * 256 + data[7], segments),
                    data[..total], data[total..]));
  }

  /** The loop of decodeSRH over the segment list. */
  method ReadSegments(data: seq<byte>, total: nat) returns (segments: seq<Segment>)
    requires 8 <= total <= |data|
    ensures segments == SplitSegments(data[8..total])
  {
    segments := [];
    var off := 8;
    ghost var all := SplitSegments(data[8..total]);
    while off + 16 <= total
      invariant 8 <= off <= total
      invariant segments + SplitSegments(data[off..total]) == all
    {
      SplitStep(data, off, total);
      Reassociate(segments, data[off..off + 16], SplitSegments(data[off + 16..total]));
      segments := segments + [data[off..off + 16]];
      off := off + 16;
    }
    assert SplitSegments(data[off..total]) == [];
  }

  lemma Reassociate(before: seq<Segment>, s: Segment, rest: seq<Segment>)
    ensures before + ([s] + rest) == before + [s] + rest
  {
  }

  lemma SplitStep(data: seq<byte>, off: nat, total: nat)
    requires off + 16 <= total <= |data|
    ensures SplitSegments(data[off..total]) == [data[off..off + 16]] + SplitSegments(data[off + 16..total])
  {
    var rest := data[off..total];
    assert rest[..16] == data[off..off + 16] && rest[16..] == data[off + 16..total];
  }

  // ----- laws

  lemma {:induction false} SegmentsAppend(a: seq<Segment>, s: Segment)
    ensures Segments(a + [s]) == Segments(a) + s
    decreases |a|
  {
    if a == [] {
      assert (a + [s])[1..] == [];
    } else {
      SegmentsAppend(a[1..], s);
      assert (a + [s])[1..] == a[1..] + [s] && (a + [s])[0] == a[0];
    }
  }

  lemma {:induction false} SplitJoined(segments: seq<Segment>, tail: seq<byte>)
    requires |tail| < 16
    ensures SplitSegments(Segments(segments) + tail) == segments
    decreases |segments|
  {
    var b := Segments(segments) + tail;
    if segments != [] {
      SplitJoined(segments[1..], tail);
      assert b[..16] == segments[0];
      assert b[16..] == Segments(segments[1..]) + tail;
    }
  }

  lemma {:induction false} JoinedSplit(b: seq<byte>)
    ensures Segments(SplitSegments(b)) == b[..|b| / 16 * 16]
    decreases |b|
  {
    if |b| >= 16 {
      JoinedSplit(b[16..]);
      var s := SplitSegments(b);
      assert s[1..] == SplitSegments(b[16..]);
      assert b[..|b| / 16 * 16] == b[..16] + b[16..][..|b[16..]| / 16 * 16];
    }
  }

  /** Decoding a serialized header followed by any payload gives both back exactly up to 127 segments: beyond that the
      8-bit length field wraps. */
  lemma RoundTripIff(h: Header, payload: seq<byte>)
    ensures Decode(Encode(h) + payload) == Ok(Decoded(h, Encode(h), payload)) <==> |h.segments| <= 127
  {
    var data := Encode(h) + payload;
    HeaderBytes(h, payload);
    if |h.segments| <= 127 {
      var total := TotalLength(data[1]);
      assert total == |Encode(h)|;
      assert data[..total] == Encode(h) && data[total..] == payload;
      assert data[8..total] == Segments(h.segments) + [];
      SplitJoined(h.segments, []);
    } else if Decode(data).Ok? {
      assert |Decode(data).value.contents| <= 8 * 256 < |Encode(h)|;
    }
  }

  lemma HeaderBytes(h: Header, payload: seq<byte>)
    ensures var data := Encode(h) + payload;
            && |data| >= 8 && data[0] == h.nextHeader && data[1] == (2 * |h.segments|) % 256 && data[2] == ROUTING_TYPE
            && data[3] == h.segmentsLeft && data[4] == h.lastEntry && data[5] == h.flags
            && data[6] as int * 256 + data[7] == h.tag
  {
    assert (Encode(h) + payload)[..8] == Fixed(h);
  }

  /** The layout of section 2 of RFC 8754: next header, length in 8-octet units after the first, routing type 4,
      segments left, last entry, flags, tag, and the segments from octet 8 on. */
  ghost predicate LaidOut(b: seq<byte>, h: Header) {
    && |b| >= 8 + 16 * |h.segments|
    && b[0] == h.nextHeader && b[3] == h.segmentsLeft && b[4] == h.lastEntry && b[5] == h.flags
    && 256 * b[6] as int + b[7] == h.tag
    && forall k :: 0 <= k < |h.segments| ==> b[8 + 16 * k..24 + 16 * k] == h.segments[k]
  }

  lemma {:induction false} SegmentAt(segments: seq<Segment>, k: nat)
    requires k < |segments|
    ensures Segments(segments)[16 * k..16 * k + 16] == segments[k]
    decreases k
  {
    var rest := Segments(segments[1..]);
    if k > 0 {
      SegmentAt(segments[1..], k - 1);
      assert Segments(segments)[16 * k..16 * k + 16] == rest[16 * (k - 1)..16 * (k - 1) + 16];
    }
  }

  lemma {:induction false} SplitAt(b: seq<byte>, k: nat)
    requires k < |b| / 16
    ensures SplitSegments(b)[k] == b[16 * k..16 * k + 16]
    decreases k
  {
    if k > 0 {
      SplitAt(b[16..], k - 1);
      assert b[16..][16 * (k - 1)..16 * (k - 1) + 16] == b[16 * k..16 * k + 16];
    }
  }

  /** Serializing lays the header out so, with its length and routing type. */
  lemma EncodedIsLaidOut(h: Header)
    ensures LaidOut(Encode(h), h) && |Encode(h)| == 8 + 16 * |h.segments|
    ensures Encode(h)[1] == (2 * |h.segments|) % 256 && Encode(h)[2] == 4
  {
    HeaderBytes(h, []);
    assert Encode(h) + [] == Encode(h);
    forall k | 0 <= k < |h.segments| ensures Encode(h)[8 + 16 * k..24 + 16 * k] == h.segments[k] {
      SegmentAt(h.segments, k);
      assert Encode(h)[8 + 16 * k..24 + 16 * k] == Segments(h.segments)[16 * k..16 * k + 16];
    }
  }

  /** What is accepted, that the header read is the one laid out, that nothing is lost or invented, and how many
      segments are found. */
  lemma DecodeAccepts(data: seq<byte>)
    ensures Decode(data).Ok? <==> |data| >= 8 && |data| >= 8 * (data[1] as int + 1)
    ensures Decode(data).Ok? ==>
              var d := Decode(data).value;
              && LaidOut(d.contents, d.header)
              && d.contents + d.payload == data && |d.contents| == 8 * (data[1] as int + 1)
              && |d.header.segments| == data[1] / 2
    ensures Decode(data).Err? ==> Decode(data).error == if |data| < 8 then TooShort else Truncated
  {
    if Decode(data).Ok? {
      var d := Decode(data).value;
      var body := data[8..|d.contents|];
      forall k | 0 <= k < |d.header.segments| ensures d.contents[8 + 16 * k..24 + 16 * k] == d.header.segments[k] {
        SplitAt(body, k);
        assert d.contents[8 + 16 * k..24 + 16 * k] == body[16 * k..16 * k + 16];
      }
    }
  }

  /** Serializing what was decoded reproduces the header bytes exactly when the routing type is that of an SRH and the
      length is a whole number of segments; the decoder checks neither. */
  lemma ReencodeIff(data: seq<byte>)
    requires Decode(data).Ok?
    ensures Encode(Decode(data).value.header) == Decode(data).value.contents <==>
            data[2] == 4 && data[1] % 2 == 0
  {
    var d := Decode(data).value;
    var total := TotalLength(data[1]);
    var body := data[8..total];
    JoinedSplit(body);
    FixedAgain(data, d.header);
    assert |Encode(d.header)| == 8 + 16 * (data[1] as int / 2);
    if data[1] % 2 == 0 {
      assert body[..|body| / 16 * 16] == body;
      assert d.contents == data[..8] + body;
      assert d.contents[2] == data[2] && Encode(d.header)[2] == ROUTING_TYPE;
    }
  }

  lemma FixedAgain(data: seq<byte>, h: Header)
    requires |data| >= 8 && |h.segments| == data[1] / 2 && h.tag == data[6] as int * 256 + data[7]
    requires h.nextHeader == data[0] && h.segmentsLeft == data[3] && h.lastEntry == data[4] && h.flags == data[5]
    ensures data[1] % 2 == 0 && data[2] == ROUTING_TYPE ==> Fixed(h) == data[..8]
  {
  }

  // ----- the fields buildSRH sets

  /** Last Entry and, unless given, Segments Left are the index of the last listed segment, truncated to 8 bits. */
  function BuildSRH(segments: seq<Segment>, segmentsLeft: Option<int>, flags: int, tag: int, next: byte): Option<Header>
  {
    if segments == [] then None else
      var last := (|segments| - 1) % 256;
      Some(Header(next, match segmentsLeft case Some(n) => n % 256 case None => last, last, flags % 256, tag % TWO_16,
                  segments))
  }

  /** What a built header has on the wire: the segments in the order given, the index of the last of them as Last Entry
      and, unless given, as Segments Left, and the low bits of what is given. It round-trips exactly up to 127 segments,
      and there the default active segment is the last one listed, the first of the path. */
  lemma BuiltHeader(segments: seq<Segment>, segmentsLeft: Option<int>, flags: int, tag: int, next: byte,
                    payload: seq<byte>)
    ensures BuildSRH(segments, segmentsLeft, flags, tag, next).Some? <==> segments != []
    ensures segments != [] ==>
              var h := BuildSRH(segments, segmentsLeft, flags, tag, next).value;
              var b := Encode(h);
              && (Decode(b + payload) == Ok(Decoded(h, b, payload)) <==> |segments| <= 127)
              && |b| == 8 + 16 * |segments| && b[0] == next && b[2] == 4
              && (forall k :: 0 <= k < |segments| ==> b[8 + 16 * k..24 + 16 * k] == segments[k])
              && b[5] == flags % 256 && 256 * b[6] as int + b[7] == tag % 65536
              && b[4] == (|segments| - 1) % 256
              && (segmentsLeft.Some? ==> b[3] == segmentsLeft.value % 256) && (segmentsLeft.None? ==> b[3] == b[4])
              && (|segments| <= 127 ==> b[4] == |segments| - 1 && b[1] == 2 * |segments|)
  {
    if segments != [] {
      var h := BuildSRH(segments, segmentsLeft, flags, tag, next).value;
      RoundTripIff(h, payload);
      EncodedIsLaidOut(h);
    }
  }
}
