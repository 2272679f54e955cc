/** Stream profiles (pkg/stl/stream.go): id allocation, next links, direction split and flow-stat tagging. */
module Profiles {
  import opened Prelude

  /** What a stream is built with. An empty name or next means none; ids and directions are optional. */
  datatype Spec = Spec(name: string, next: string, packet: Option<seq<byte>>, streamID: Option<int>,
                       direction: Option<int>, dummy: bool, selfStart: bool, isg: real)

  datatype Resolved = Resolved(id: int, nextStreamID: int, spec: Spec)

  /** Errors name the offending stream by position. */
  datatype ResolveError = DuplicateName(i: nat) | NoPacket(i: nat) | UnknownNext(i: nat)

  // ----- id allocation

  function MaxOf(ids: seq<int>): (m: int)
    requires ids != []
    ensures forall x :: x in ids ==> x <= m
  {
    if |ids| == 1 then ids[0] else
      var m := MaxOf(ids[1..]);
      assert ids == [ids[0]] + ids[1..];
      if ids[0] > m then ids[0] else m
  }

  /** The least free id from m on. */
  function NextFree(ids: seq<int>, m: int): (id: int)
    ensures m <= id && id !in ids
    ensures forall x :: m <= x < id ==> x in ids
    decreases if m in ids then MaxOf(ids) + 1 - m else 0
  {
    if m !in ids then m else NextFree(ids, m + 1)
  }

  /** The automatic id: one past the last allocated. */
  function Auto(before: seq<int>): int {
    if before == [] then 0 else before[|before| - 1] + 1
  }

  function Wanted(before: seq<int>, s: Spec): int {
    match s.streamID case Some(id) => id case None => Auto(before)
  }

  /** A taken id is replaced by the next free one after the automatic id. */
  function Choose(before: seq<int>, s: Spec): (id: int)
    ensures id !in before
    ensures Wanted(before, s) in before && before != [] ==>
              id > before[|before| - 1] + 1 && forall x :: before[|before| - 1] + 1 < x < id ==> x in before
  {
    if Wanted(before, s) !in before then Wanted(before, s) else NextFree(before, Auto(before) + 1)
  }

  function Allocate(specs: seq<Spec>): (ids: seq<int>)
    ensures |ids| == |specs|
  {
    if specs == [] then [] else
      var before := Allocate(specs[..|specs| - 1]);
      before + [Choose(before, specs[|specs| - 1])]
  }

  lemma {:induction false} AllocatePrefix(specs: seq<Spec>, i: nat)
    requires i <= |specs|
    ensures Allocate(specs)[..i] == Allocate(specs[..i])
    decreases |specs| - i
  {
    if i == |specs| {
      assert specs[..i] == specs;
    } else {
      AllocatePrefix(specs, i + 1);
      assert specs[..i + 1][..i] == specs[..i];
    }
  }

  lemma AllocateAt(specs: seq<Spec>, i: nat)
    requires i < |specs|
    ensures Allocate(specs)[i] == Choose(Allocate(specs)[..i], specs[i])
  {
    AllocatePrefix(specs, i);
    AllocatePrefix(specs, i + 1);
    assert specs[..i + 1][..i] == specs[..i];
    assert Allocate(specs)[i] == Allocate(specs)[..i + 1][i];
  }

  /** Ids never collide, whatever mix of explicit and automatic ids the profile has. */
  lemma AllocationIsInjective(specs: seq<Spec>)
    ensures forall i, j :: 0 <= i < j < |specs| ==> Allocate(specs)[i] != Allocate(specs)[j]
  {
    forall i, j | 0 <= i < j < |specs| ensures Allocate(specs)[i] != Allocate(specs)[j] {
      AllocateAt(specs, j);
      assert Allocate(specs)[..j][i] == Allocate(specs)[i];
    }
  }

  /** Every explicit id is given to the stream that asks for it. */
  ghost predicate Honoured(specs: seq<Spec>) {
    forall i :: 0 <= i < |specs| && specs[i].streamID.Some? ==> Allocate(specs)[i] == specs[i].streamID.value
  }

  /** The ids a profile means, before any conflict: an explicit id stands for itself and an automatic one follows the
      stream before it, past the ids already meant. */
  function Intended(specs: seq<Spec>): (ids: seq<int>)
    ensures |ids| == |specs|
  {
    if specs == [] then [] else
      var before := Intended(specs[..|specs| - 1]);
      before + [Meant(before, specs[|specs| - 1])]
  }

  function Meant(before: seq<int>, s: Spec): int {
    match s.streamID case Some(id) => id case None => NextFree(before, Auto(before))
  }

  ghost predicate AllDistinct(ids: seq<int>) {
    forall i, j :: 0 <= i < j < |ids| ==> ids[i] != ids[j]
  }

  lemma {:induction false} IntendedPrefix(specs: seq<Spec>, i: nat)
    requires i <= |specs|
    ensures Intended(specs)[..i] == Intended(specs[..i])
    decreases |specs| - i
  {
    if i == |specs| {
      assert specs[..i] == specs;
    } else {
      IntendedPrefix(specs, i + 1);
      assert specs[..i + 1][..i] == specs[..i];
    }
  }

  lemma IntendedAt(specs: seq<Spec>, i: nat)
    requires i < |specs|
    ensures Intended(specs)[i] == Meant(Intended(specs)[..i], specs[i])
  {
    IntendedPrefix(specs, i);
    IntendedPrefix(specs, i + 1);
    assert specs[..i + 1][..i] == specs[..i];
    assert Intended(specs)[i] == Intended(specs)[..i + 1][i];
  }

  /** The allocator and the intention go together up to the first explicit id that is already meant for another. */
  lemma {:induction false} AllocatesIntended(specs: seq<Spec>, n: nat)
    requires n <= |specs| && (Honoured(specs) || AllDistinct(Intended(specs)))
    ensures Allocate(specs)[..n] == Intended(specs)[..n]
    decreases n
  {
    if n > 0 {
      var i := n - 1;
      AllocatesIntended(specs, i);
      AllocateAt(specs, i);
      IntendedAt(specs, i);
      var before := Intended(specs)[..i];
      if specs[i].streamID.Some? && AllDistinct(Intended(specs)) {
        forall x | x in before ensures x != Intended(specs)[i] { }
      }
      assert Allocate(specs)[..n] == Allocate(specs)[..i] + [Allocate(specs)[i]];
      assert Intended(specs)[..n] == before + [Intended(specs)[i]];
    }
  }

  /** Every explicit id is honoured exactly when the ids the profile means do not collide, and then those are the ids
      allocated. */
  lemma HonouredIff(specs: seq<Spec>)
    ensures Honoured(specs) <==> AllDistinct(Intended(specs))
    ensures Honoured(specs) ==> Allocate(specs) == Intended(specs)
  {
    if Honoured(specs) || AllDistinct(Intended(specs)) {
      AllocatesIntended(specs, |specs|);
      assert Allocate(specs)[..|specs|] == Allocate(specs) && Intended(specs)[..|specs|] == Intended(specs);
      AllocationIsInjective(specs);
      forall i: nat | i < |specs| && specs[i].streamID.Some? ensures Intended(specs)[i] == specs[i].streamID.value {
        IntendedAt(specs, i);
      }
    }
  }

  ghost predicate ExplicitDistinct(specs: seq<Spec>) {
    forall i, j :: 0 <= i < j < |specs| && specs[i].streamID.Some? && specs[j].streamID.Some? ==>
                     specs[i].streamID != specs[j].streamID
  }

  /** With the explicit streams first, every explicit id is honoured exactly when none is repeated. */
  lemma ExplicitFirstHonouredIff(specs: seq<Spec>, n: nat)
    requires n <= |specs| && forall i :: 0 <= i < |specs| ==> (specs[i].streamID.Some? <==> i < n)
    ensures Honoured(specs) <==> ExplicitDistinct(specs)
  {
    var ids := Intended(specs);
    forall i: nat | i < |specs|
      ensures if i < n then ids[i] == specs[i].streamID.value else forall j :: 0 <= j < i ==> ids[j] != ids[i]
    {
      IntendedAt(specs, i);
      if i >= n {
        forall j | 0 <= j < i ensures ids[j] != ids[i] { assert ids[j] in ids[..i]; }
      }
    }
    HonouredIff(specs);
  }

  ghost predicate Increasing(ids: seq<int>) {
    forall i, j :: 0 <= i < j < |ids| ==> ids[i] < ids[j]
  }

  /** Explicit ids are not negative and rise. */
  ghost predicate ExplicitRise(specs: seq<Spec>) {
    && (forall i :: 0 <= i < |specs| && specs[i].streamID.Some? ==> specs[i].streamID.value >= 0)
    && (forall i, j :: 0 <= i < j < |specs| && specs[i].streamID.Some? && specs[j].streamID.Some? ==>
          specs[i].streamID.value < specs[j].streamID.value)
  }

  /** Explicit ids leave room for the streams before them. */
  ghost predicate LeavesRoom(specs: seq<Spec>) {
    && (forall i :: 0 <= i < |specs| && specs[i].streamID.Some? ==> specs[i].streamID.value >= i)
    && (forall i, j :: 0 <= i < j < |specs| && specs[i].streamID.Some? && specs[j].streamID.Some? ==>
          specs[j].streamID.value - specs[i].streamID.value >= j - i)
  }

  /** When explicit ids rise with position, they are all honoured exactly when each leaves room for the automatic
      streams before it. */
  lemma RisingHonouredIff(specs: seq<Spec>)
    requires ExplicitRise(specs)
    ensures Honoured(specs) <==> LeavesRoom(specs)
  {
    HonouredIff(specs);
    if LeavesRoom(specs) || AllDistinct(Intended(specs)) {
      IntendedRises(specs, |specs|);
      assert Intended(specs)[..|specs|] == Intended(specs);
      forall i: nat | i < |specs| && specs[i].streamID.Some? ensures Intended(specs)[i] == specs[i].streamID.value {
        IntendedAt(specs, i);
      }
      IncreasingGaps(Intended(specs));
      if specs != [] { IntendedAt(specs, 0); }
    }
  }

  lemma {:induction false} IncreasingGaps(ids: seq<int>)
    requires Increasing(ids)
    ensures forall i, j :: 0 <= i <= j < |ids| ==> ids[j] - ids[i] >= j - i
    decreases |ids|
  {
    if |ids| > 1 {
      var n := |ids| - 1;
      IncreasingGaps(ids[..n]);
      assert ids[n - 1] < ids[n];
      forall i | 0 <= i < n ensures ids[n] - ids[i] >= n - i {
        assert ids[..n][n - 1] - ids[..n][i] >= n - 1 - i;
      }
    }
  }

  /** Automatic ids that follow increasing ones count on from the last explicit id, or from 0. */
  lemma {:induction false} RunStart(specs: seq<Spec>, n: nat) returns (j: nat)
    requires 0 < n <= |specs| && Increasing(Intended(specs)[..n])
    ensures j < n && (specs[j].streamID.Some? || (j == 0 && Intended(specs)[0] == 0))
    ensures forall i :: j <= i < n ==> Intended(specs)[i] == Intended(specs)[j] + i - j
    decreases n
  {
    var i := n - 1;
    IntendedAt(specs, i);
    if specs[i].streamID.Some? || i == 0 {
      j := i;
    } else {
      var before := Intended(specs)[..i];
      assert before == Intended(specs)[..n][..i];
      j := RunStart(specs, i);
      forall x | x in before ensures x <= before[i - 1] {
        var k :| 0 <= k < i && before[k] == x;
        assert k < i - 1 ==> Intended(specs)[..n][k] < Intended(specs)[..n][i - 1];
      }
      assert Auto(before) !in before;
    }
  }

  lemma {:induction false} IntendedRises(specs: seq<Spec>, n: nat)
    requires n <= |specs| && ExplicitRise(specs) && (LeavesRoom(specs) || AllDistinct(Intended(specs)))
    ensures Increasing(Intended(specs)[..n])
    decreases n
  {
    if n > 1 {
      var i, ids := n - 1, Intended(specs);
      IntendedRises(specs, i);
      NextRises(specs, i);
      forall k | 0 <= k < i ensures ids[k] < ids[i] {
        assert k < i - 1 ==> ids[..i][k] < ids[..i][i - 1];
      }
    }
  }

  lemma NextRises(specs: seq<Spec>, i: nat)
    requires 0 < i < |specs| && ExplicitRise(specs) && (LeavesRoom(specs) || AllDistinct(Intended(specs)))
    requires Increasing(Intended(specs)[..i])
    ensures Intended(specs)[i - 1] < Intended(specs)[i]
  {
    var ids := Intended(specs);
    IntendedAt(specs, i);
    var j := RunStart(specs, i);
    IntendedAt(specs, j);
    RunCovers(ids, j, i);
    if AllDistinct(ids) {
      assert ids[i] !in ids[..i];
    }
  }

  lemma RunCovers(ids: seq<int>, j: nat, n: nat)
    requires j < n <= |ids| && forall i :: j <= i < n ==> ids[i] == ids[j] + i - j
    ensures forall x :: ids[j] <= x <= ids[n - 1] ==> x in ids[..n]
  {
    forall x | ids[j] <= x <= ids[n - 1] ensures x in ids[..n] {
      assert ids[..n][j + (x - ids[j])] == x;
    }
  }

  /** Without explicit ids, ids are positions. */
  lemma {:induction false} AutomaticIdsArePositions(specs: seq<Spec>)
    requires forall i :: 0 <= i < |specs| ==> specs[i].streamID.None?
    ensures forall i :: 0 <= i < |specs| ==> Allocate(specs)[i] == i
    decreases |specs|
  {
    if specs != [] {
      AutomaticIdsArePositions(specs[..|specs| - 1]);
    }
  }

  /** Repeating an explicit id is not an error: the second stream is renumbered. */
  lemma DuplicateIdIsRenumbered(a: Spec, b: Spec)
    requires a.streamID == b.streamID == Some(5)
    ensures Allocate([a, b]) == [5, 7]
  {
    assert [a, b][..1] == [a] && [a][..0] == [];
    assert Allocate([a]) == [5];
  }

  /** An explicit id that nobody repeats is lost all the same when an automatic stream before it took it. */
  lemma ExplicitIdIsLost(a: Spec, b: Spec)
    requires a.streamID == None && b.streamID == Some(0)
    ensures Allocate([a, b]) == [0, 2] && !Honoured([a, b])
  {
    assert [a, b][..1] == [a] && [a][..0] == [];
    assert Allocate([a]) == [0];
  }

  // ----- names and links

  predicate IsDuplicate(specs: seq<Spec>, i: nat) {
    i < |specs| && specs[i].name != "" && exists j :: 0 <= j < i && specs[j].name == specs[i].name
  }

  /** Stream i names stream j as its successor. */
  predicate Links(specs: seq<Spec>, i: nat, j: nat) {
    i < |specs| && j < |specs| && specs[i].next != "" && specs[j].name == specs[i].next
  }

  ghost predicate Dangles(specs: seq<Spec>, i: nat) {
    i < |specs| && specs[i].next != "" && forall j: nat :: !Links(specs, i, j)
  }

  ghost predicate Broken(specs: seq<Spec>, i: nat) {
    i < |specs| && (specs[i].packet.None? || Dangles(specs, i))
  }

  /** When a profile resolves: names are unique, every stream has a packet and every next is known. */
  ghost predicate Resolves(specs: seq<Spec>) {
    && (forall i: nat :: !IsDuplicate(specs, i))
    && (forall i: nat :: !Broken(specs, i))
  }

  /** The resolved successor of stream i: the id allocated to the stream it names, or -1. */
  ghost predicate NextIs(specs: seq<Spec>, i: nat, id: int)
    requires i < |specs|
  {
    if specs[i].next == "" then id == -1
    else exists j: nat :: Links(specs, i, j) && id == Allocate(specs)[j]
  }

  /** What Resolve returns, completely: the ids and links of a resolvable profile, or the first error found. */
  ghost predicate IsResolution(specs: seq<Spec>, r: Result<seq<Resolved>, ResolveError>) {
    match r
    case Ok(out) =>
      && Resolves(specs) && |out| == |specs|
      && (forall i :: 0 <= i < |specs| ==>
            out[i].spec == specs[i] && out[i].id == Allocate(specs)[i] && NextIs(specs, i, out[i].nextStreamID))
    case Err(DuplicateName(i)) => IsDuplicate(specs, i) && forall j: nat :: j < i ==> !IsDuplicate(specs, j)
    case Err(NoPacket(i)) =>
      && (forall j: nat :: !IsDuplicate(specs, j)) && (forall j: nat :: j < i ==> !Broken(specs, j))
      && i < |specs| && specs[i].packet.None?
    case Err(UnknownNext(i)) =>
      && (forall j: nat :: !IsDuplicate(specs, j)) && (forall j: nat :: j < i ==> !Broken(specs, j))
      && Dangles(specs, i) && specs[i].packet.Some?
  }

  predicate HasName(specs: seq<Spec>, n: nat, name: string)
    requires n <= |specs|
  {
    exists j :: 0 <= j < n && specs[j].name == name
  }

  /** lookup maps exactly the non-empty names of the first n streams to their ids. */
  ghost predicate IsLookup(lookup: map<string, int>, specs: seq<Spec>, ids: seq<int>, n: nat)
    requires n <= |specs| && n <= |ids|
  {
    && (forall name :: name in lookup <==> name != "" && HasName(specs, n, name))
    && (forall j :: 0 <= j < n && specs[j].name != "" ==> lookup[specs[j].name] == ids[j])
  }

  /** Registering the next stream: a name already present is a duplicate. */
  lemma LookupStep(lookup: map<string, int>, specs: seq<Spec>, ids: seq<int>, i: nat)
    requires i < |specs| && |ids| == i + 1 && IsLookup(lookup, specs, ids, i)
    ensures var name := specs[i].name;
            && (name == "" ==> !IsDuplicate(specs, i) && IsLookup(lookup, specs, ids, i + 1))
            && (name != "" && name in lookup ==> IsDuplicate(specs, i))
            && (name != "" && name !in lookup ==>
                !IsDuplicate(specs, i) && IsLookup(lookup[name := ids[i]], specs, ids, i + 1))
  {
    var name := specs[i].name;
    forall n ensures HasName(specs, i + 1, n) <==> n == name || HasName(specs, i, n) {
      if n == name { assert specs[i].name == n; }
    }
  }

  method Resolve(specs: seq<Spec>) returns (r: Result<seq<Resolved>, ResolveError>)
    ensures IsResolution(specs, r)
  {
    var ids: seq<int> := [];
    var lookup: map<string, int> := map[];
    var used: set<int> := {};
    var nextAuto := 0;
    for i := 0 to |specs|
      invariant ids == Allocate(specs[..i]) && nextAuto == Auto(ids)
      invariant forall x :: x in used <==> x in ids
      invariant forall j: nat :: j < i ==> !IsDuplicate(specs, j)
      invariant IsLookup(lookup, specs, ids, i)
    {
      var s := specs[i];
      var id := AllocateOne(s, ids, used, nextAuto);
      assert specs[..i + 1][..i] == specs[..i];
      used := used + {id};
      nextAuto := id + 1;
      ids := ids + [id];
      LookupStep(lookup, specs, ids, i);
      if s.name != "" {
        if s.name in lookup { return Err(DuplicateName(i)); }
        lookup := lookup[s.name := id];
      }
    }
    assert specs[..|specs|] == specs;
    r := Emit(specs, ids, lookup);
  }

  /** The inner loop: keeps stepping the automatic id while the current one is used. */
  method AllocateOne(s: Spec, ghost ids: seq<int>, used: set<int>, auto: int) returns (id: int)
    requires auto == Auto(ids) && forall x :: x in used <==> x in ids
    ensures id == Choose(ids, s)
  {
    var nextAuto := auto;
    id := nextAuto;
    if s.streamID.Some? { id := s.streamID.value; }
    ghost var stepped := false;
    while id in used
      invariant !stepped ==> id == Wanted(ids, s) && nextAuto == auto
      invariant stepped ==> id == nextAuto > auto && Wanted(ids, s) in ids
      invariant stepped ==> forall x :: auto < x < id ==> x in ids
      decreases !stepped, if id in ids then MaxOf(ids) - nextAuto else -1
    {
      nextAuto := nextAuto + 1;
      id := nextAuto;
      stepped := true;
    }
    if stepped {
      LeastIsUnique(ids, auto + 1, id, NextFree(ids, auto + 1));
    }
  }

  lemma LeastIsUnique(ids: seq<int>, m: int, a: int, b: int)
    requires m <= a && m <= b && a !in ids && b !in ids
    requires forall x :: m <= x < a ==> x in ids
    requires forall x :: m <= x < b ==> x in ids
    ensures a == b
  {
  }

  /** A next that is looked up leads to its stream's id, and one that is missing dangles. */
  lemma NextKnown(specs: seq<Spec>, lookup: map<string, int>, i: nat)
    requires i < |specs| && IsLookup(lookup, specs, Allocate(specs), |specs|)
    ensures specs[i].next == "" ==> !Dangles(specs, i) && NextIs(specs, i, -1)
    ensures specs[i].next != "" && specs[i].next in lookup ==>
              !Dangles(specs, i) && NextIs(specs, i, lookup[specs[i].next])
    ensures specs[i].next != "" && specs[i].next !in lookup ==> Dangles(specs, i)
  {
    if specs[i].next != "" && specs[i].next in lookup {
      var j: nat :| j < |specs| && specs[j].name == specs[i].next;
      assert Links(specs, i, j);
    }
  }

  /** The second loop: emits each stream with its successor's id. */
  method Emit(specs: seq<Spec>, ids: seq<int>, lookup: map<string, int>)
    returns (r: Result<seq<Resolved>, ResolveError>)
    requires ids == Allocate(specs) && IsLookup(lookup, specs, ids, |specs|)
    requires forall j: nat :: !IsDuplicate(specs, j)
    ensures IsResolution(specs, r) && !(r.Err? && r.error.DuplicateName?)
  {
    var out: seq<Resolved> := [];
    for i := 0 to |specs|
      invariant |out| == i
      invariant forall j: nat :: j < i ==> !Broken(specs, j)
      invariant forall j :: 0 <= j < i ==>
        out[j].spec == specs[j] && out[j].id == ids[j] && NextIs(specs, j, out[j].nextStreamID)
    {
      var s := specs[i];
      NextKnown(specs, lookup, i);
      if s.packet.None? { return Err(NoPacket(i)); }
      var nextID := -1;
      if s.next != "" {
        if s.next !in lookup {
          return Err(UnknownNext(i));
        }
        nextID := lookup[s.next];
      }
      out := out + [Resolved(ids[i], nextID, s)];
    }
    r := Ok(out);
  }

  /** Resolution succeeds exactly for resolvable profiles; ids play no part in it. */
  lemma SucceedsIffResolves(specs: seq<Spec>, r: Result<seq<Resolved>, ResolveError>)
    requires IsResolution(specs, r)
    ensures r.Ok? <==> Resolves(specs)
  {
    if r.Err? {
      match r.error
      case DuplicateName(i) => assert IsDuplicate(specs, i);
      case NoPacket(i) => assert Broken(specs, i);
      case UnknownNext(i) => assert Broken(specs, i);
    }
  }

  // ----- direction split

  /** Go's remainder keeps the sign of the dividend. */
  function Parity(port: int): int {
    if port >= 0 then port % 2 else -((-port) % 2)
  }

  predicate Loads(s: Spec, dir: int) {
    s.direction.None? || s.direction.value == dir
  }

  /** Positions of the streams a port loads, in order. */
  function Kept(specs: seq<Spec>, dir: int): (kept: seq<nat>)
    ensures forall k :: 0 <= k < |kept| ==> kept[k] < |specs| && Loads(specs[kept[k]], dir)
    ensures forall k, l :: 0 <= k < l < |kept| ==> kept[k] < kept[l]
  {
    if specs == [] then [] else
      var n := |specs| - 1;
      Kept(specs[..n], dir) + (if Loads(specs[n], dir) then [n] else [])
  }

  function Selected(specs: seq<Spec>, dir: int): (sub: seq<Spec>)
    ensures |sub| == |Kept(specs, dir)|
    ensures forall k :: 0 <= k < |sub| ==> sub[k] == specs[Kept(specs, dir)[k]]
  {
    if specs == [] then [] else
      var n := |specs| - 1;
      Selected(specs[..n], dir) + (if Loads(specs[n], dir) then [specs[n]] else [])
  }

  lemma {:induction false} KeptIsComplete(specs: seq<Spec>, dir: int, i: nat)
    requires i < |specs| && Loads(specs[i], dir)
    ensures exists k :: 0 <= k < |Kept(specs, dir)| && Kept(specs, dir)[k] == i
    decreases |specs|
  {
    var n := |specs| - 1;
    if i < n {
      KeptIsComplete(specs[..n], dir, i);
      var k :| 0 <= k < |Kept(specs[..n], dir)| && Kept(specs[..n], dir)[k] == i;
      assert Kept(specs, dir)[k] == i;
    } else {
      assert Kept(specs, dir)[|Kept(specs, dir)| - 1] == i;
    }
  }

  /** Which ports a stream is for: all, the even ones, or the odd ones. Go's remainder of a negative odd number is -1.
      */
  predicate GoesTo(s: Spec, port: int) {
    || s.direction == None
    || (s.direction == Some(0) && port % 2 == 0)
    || (s.direction == Some(1) && port % 2 == 1 && port > 0)
    || (s.direction == Some(-1) && port % 2 == 1 && port < 0)
  }

  /** `out` is the streams for this port, each once and in order; `at` says where they were. */
  ghost predicate IsSplit(specs: seq<Spec>, port: int, out: seq<Spec>, at: seq<nat>) {
    && |at| == |out| && (forall k :: 0 <= k < |at| ==> at[k] < |specs| && out[k] == specs[at[k]])
    && (forall k, l :: 0 <= k < l < |at| ==> at[k] < at[l])
    && (forall i: nat :: i < |specs| ==> (i in at <==> GoesTo(specs[i], port)))
  }

  lemma SelectedIsSplit(specs: seq<Spec>, port: int)
    ensures IsSplit(specs, port, Selected(specs, Parity(port)), Kept(specs, Parity(port)))
  {
    var at := Kept(specs, Parity(port));
    forall i: nat | i < |specs| ensures i in at <==> GoesTo(specs[i], port) {
      assert Loads(specs[i], Parity(port)) <==> GoesTo(specs[i], port);
      if Loads(specs[i], Parity(port)) {
        KeptIsComplete(specs, Parity(port), i);
      }
    }
  }

  method ForPort(specs: seq<Spec>, port: int) returns (out: seq<Spec>, ghost at: seq<nat>)
    ensures out == Selected(specs, Parity(port)) && IsSplit(specs, port, out, at)
  {
    SelectedIsSplit(specs, port);
    at := Kept(specs, Parity(port));
    var dir := Parity(port);
    out := [];
    for i := 0 to |specs|
      invariant out == Selected(specs[..i], dir)
    {
      assert specs[..i + 1][..i] == specs[..i];
      if specs[i].direction.None? || specs[i].direction.value == dir {
        out := out + [specs[i]];
      }
    }
    assert specs[..|specs|] == specs;
  }

  /** Every link of a loaded stream leads to a loaded stream. */
  ghost predicate Closed(specs: seq<Spec>, dir: int) {
    forall i: nat, j: nat :: Links(specs, i, j) && Loads(specs[i], dir) ==> Loads(specs[j], dir)
  }

  /** The links of a sub-profile are those of the profile between the streams that were kept. */
  lemma InducedLinks(specs: seq<Spec>, dir: int, k: nat, l: nat)
    requires k < |Kept(specs, dir)| && l < |Kept(specs, dir)|
    ensures Links(Selected(specs, dir), k, l) <==> Links(specs, Kept(specs, dir)[k], Kept(specs, dir)[l])
  {
  }

  /** The sub-profile of a resolvable profile resolves exactly when no kept link leaves it. */
  lemma SplitResolvesIff(specs: seq<Spec>, dir: int)
    requires Resolves(specs)
    ensures Resolves(Selected(specs, dir)) <==> Closed(specs, dir)
  {
    var sub, kept := Selected(specs, dir), Kept(specs, dir);
    if Closed(specs, dir) {
      forall k: nat ensures !IsDuplicate(sub, k) {
        NoNewDuplicates(specs, dir, k);
      }
      forall k: nat ensures !Broken(sub, k) {
        if k < |sub| { KeptTarget(specs, dir, k); }
      }
    }
    if Resolves(sub) {
      forall i: nat, j: nat | Links(specs, i, j) && Loads(specs[i], dir) ensures Loads(specs[j], dir) {
        KeptIsComplete(specs, dir, i);
        var k :| 0 <= k < |kept| && kept[k] == i;
        assert !Broken(sub, k) && !Dangles(sub, k);
        var l: nat :| Links(sub, k, l);
        SameName(specs, j, kept[l]);
      }
    }
  }

  lemma SameName(specs: seq<Spec>, i: nat, j: nat)
    requires i < |specs| && j < |specs| && specs[i].name == specs[j].name != ""
    requires forall k: nat :: !IsDuplicate(specs, k)
    ensures i == j
  {
    assert !IsDuplicate(specs, i) && !IsDuplicate(specs, j);
  }

  lemma NoNewDuplicates(specs: seq<Spec>, dir: int, k: nat)
    requires forall i: nat :: !IsDuplicate(specs, i)
    ensures !IsDuplicate(Selected(specs, dir), k)
  {
    var sub, kept := Selected(specs, dir), Kept(specs, dir);
    if k < |sub| && sub[k].name != "" {
      forall j | 0 <= j < k ensures sub[j].name != sub[k].name {
        if sub[j].name == sub[k].name { SameName(specs, kept[j], kept[k]); }
      }
    }
  }

  lemma KeptTarget(specs: seq<Spec>, dir: int, k: nat)
    requires Resolves(specs) && Closed(specs, dir) && k < |Selected(specs, dir)|
    ensures !Broken(Selected(specs, dir), k)
    ensures Selected(specs, dir)[k].next != "" ==> exists l: nat :: Links(Selected(specs, dir), k, l)
  {
    var sub, kept := Selected(specs, dir), Kept(specs, dir);
    var i := kept[k];
    assert !Broken(specs, i);
    if specs[i].next != "" {
      var j: nat :| Links(specs, i, j);
      KeptIsComplete(specs, dir, j);
      var l :| 0 <= l < |kept| && kept[l] == j;
      assert Links(sub, k, l);
    }
  }

  /** A link is compatible when its target is undirected or goes the referrer's way. Streams with a direction other
      than 0 or 1 are never loaded and may refer to anything. */
  predicate Compatible(from: Spec, to: Spec) {
    || to.direction.None?
    || from.direction == to.direction
    || (from.direction.Some? && from.direction.value != 0 && from.direction.value != 1)
  }

  /** A resolvable profile resolves on every port exactly when all its links are compatible; on each port the links are
      the order-preserving induced subgraph of the profile's. */
  lemma ResolvesOnEveryPortIff(specs: seq<Spec>)
    requires Resolves(specs)
    ensures (forall port: nat :: Resolves(Selected(specs, Parity(port)))) <==>
            (forall i: nat, j: nat :: Links(specs, i, j) ==> Compatible(specs[i], specs[j]))
  {
    SplitResolvesIff(specs, 0);
    SplitResolvesIff(specs, 1);
    forall port: nat ensures Parity(port) == 0 || Parity(port) == 1 { }
    assert Parity(0) == 0 && Parity(1) == 1;
    if forall i: nat, j: nat :: Links(specs, i, j) ==> Compatible(specs[i], specs[j]) {
      assert Closed(specs, 0) && Closed(specs, 1);
    }
    if Closed(specs, 0) && Closed(specs, 1) {
      forall i: nat, j: nat | Links(specs, i, j) ensures Compatible(specs[i], specs[j]) { }
    }
  }

  /** With compatible links every port's profile resolves, and each stream's resolved successor is the id given to the
      kept stream that is its successor in the whole profile. */
  lemma SplitPreservesGraph(specs: seq<Spec>, port: nat, r: Result<seq<Resolved>, ResolveError>)
    requires Resolves(specs) && forall i: nat, j: nat :: Links(specs, i, j) ==> Compatible(specs[i], specs[j])
    requires IsResolution(Selected(specs, Parity(port)), r)
    ensures var kept := Kept(specs, Parity(port));
            && r.Ok? && |r.value| == |kept|
            && forall k :: 0 <= k < |kept| ==>
                 && r.value[k].spec == specs[kept[k]]
                 && (if specs[kept[k]].next == "" then r.value[k].nextStreamID == -1
                     else exists l: nat :: l < |kept| && Links(specs, kept[k], kept[l])
                                           && r.value[k].nextStreamID == r.value[l].id)
  {
    var sub, kept := Selected(specs, Parity(port)), Kept(specs, Parity(port));
    ResolvesOnEveryPortIff(specs);
    SucceedsIffResolves(sub, r);
    forall k: nat | k < |kept| && sub[k].next != ""
      ensures exists l: nat :: l < |kept| && Links(specs, kept[k], kept[l]) && r.value[k].nextStreamID == r.value[l].id
    {
      assert NextIs(sub, k, r.value[k].nextStreamID);
      var l: nat :| Links(sub, k, l) && r.value[k].nextStreamID == Allocate(sub)[l];
      InducedLinks(specs, Parity(port), k, l);
    }
  }

  // ----- flow-stat tagging, in place

  datatype FlowStats = FlowStats(enabled: bool, pgid: int, ruleType: string)

  class Stream {
    const spec: Spec
    var stats: FlowStats

    constructor (spec: Spec, stats: FlowStats)
      ensures this.spec == spec && this.stats == stats
    {
      this.spec := spec;
      this.stats := stats;
    }
  }

  /** Streams that tagging will change. */
  ghost predicate Untagged(s: Stream)
    reads s
  {
    !s.spec.dummy && !s.stats.enabled
  }

  ghost predicate TagsDistinct(p: seq<Stream>)
    reads p
  {
    forall s, t :: s in p && t in p && s != t && s.stats.enabled && t.stats.enabled ==> s.stats.pgid != t.stats.pgid
  }

  /** Tags every untagged stream; the same stream may be listed more than once. `tagged` lists the streams changed: the
      k-th gets id startPGID + k, so the new ids are exactly the range [startPGID, next). */
  method EnsureFlowStats(p: seq<Stream>, startPGID: int) returns (next: int, ghost tagged: seq<Stream>)
    modifies (set s | s in p)`stats
    ensures next == startPGID + |tagged|
    ensures forall k :: 0 <= k < |tagged| ==>
              tagged[k] in p && tagged[k].stats == FlowStats(true, startPGID + k, "stats")
    ensures forall s :: s in p ==> (s in tagged <==> !s.spec.dummy && !old(s.stats).enabled)
    ensures forall s :: s in p && s !in tagged ==> s.stats == old(s.stats)
    ensures (&& old(TagsDistinct(p))
             && forall s :: s in p && s !in tagged && s.stats.enabled ==> !(startPGID <= s.stats.pgid < next))
            ==> TagsDistinct(p)
  {
    next := startPGID;
    tagged := [];
    for i := 0 to |p|
      invariant next == startPGID + |tagged|
      invariant forall k :: 0 <= k < |tagged| ==>
        tagged[k] in p[..i] && old(Untagged(tagged[k])) && tagged[k].stats == FlowStats(true, startPGID + k, "stats")
      invariant forall s :: s in p[..i] && old(Untagged(s)) ==> s in tagged
      invariant forall s :: s in p && s !in tagged ==> s.stats == old(s.stats)
    {
      var s := p[i];
      assert p[..i + 1] == p[..i] + [s];
      if !s.spec.dummy && !s.stats.enabled {
        assert s !in tagged;
        s.stats := FlowStats(true, next, "stats");
        tagged := tagged + [s];
        next := next + 1;
      }
    }
    assert p[..|p|] == p;
  }

  lemma FirstIsMember<T>(t: seq<T>)
    ensures t == [] || t[0] in t
  {
  }

  ghost function StatsOf(p: seq<Stream>): seq<FlowStats>
    reads p
  {
    seq(|p|, i requires 0 <= i < |p| reads p => p[i].stats)
  }

  /** Tagging again changes nothing and allocates nothing, from whatever id it starts: every stream keeps the rule it
      had after the first pass, which `after` records. */
  method TagTwice(p: seq<Stream>, first: int, second: int)
    returns (next1: int, next2: int, ghost after: seq<FlowStats>)
    modifies (set s | s in p)`stats
    ensures next2 == second
    ensures |after| == |p| && forall i :: 0 <= i < |p| ==> p[i].stats == after[i]
    ensures forall i :: 0 <= i < |p| ==>
              if old(Untagged(p[i]))
              then after[i].enabled && first <= after[i].pgid < next1 && after[i].ruleType == "stats"
              else after[i] == old(p[i].stats)
  {
    ghost var tagged1, tagged2;
    next1, tagged1 := EnsureFlowStats(p, first);
    after := StatsOf(p);
    next2, tagged2 := EnsureFlowStats(p, second);
    assert forall s :: s in p ==> s !in tagged2;
    FirstIsMember(tagged2);
  }
}
