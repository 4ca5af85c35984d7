/** The assembler's output bytes, their compression into segments, and the
    segmented program image. */
module ProgramImage {
  import opened Outcomes

  type Byte = n: int | 0 <= n < 256

  const ADDRESS_SPACE := 0x1_0000_0000

  /** A map that remembers the order in which its keys first appeared. */
  datatype ByteMap = ByteMap(order: seq<nat>, bytes: map<nat, Byte>) {
    ghost predicate Valid() {
      && (forall i, j :: 0 <= i < j < |order| ==> order[i] != order[j])
      && (forall a: nat :: a in order <==> a in bytes)
    }

    function Set(address: nat, byte: Byte): ByteMap {
      ByteMap(if address in bytes then order else order + [address], bytes[address := byte])
    }

    lemma {:induction false} SetKeepsValid(address: nat, byte: Byte)
      requires Valid()
      ensures Set(address, byte).Valid()
    {
    }
  }

  datatype Segment = Segment(address: nat, bytes: seq<Byte>) {
    function End(): nat {
      address + |bytes|
    }

    predicate Covers(a: nat) {
      address <= a < End()
    }
  }

  // --- What a segment list has to be ----------------------------------------------------

  /** Nonempty segments, in order, with at least one free address between neighbours. */
  predicate Separated(segments: seq<Segment>) {
    && (forall i :: 0 <= i < |segments| ==> segments[i].bytes != [])
    && (forall i, j :: 0 <= i < j < |segments| ==> segments[i].End() < segments[j].address)
  }

  predicate Covered(segments: seq<Segment>, a: nat) {
    exists i :: 0 <= i < |segments| && segments[i].Covers(a)
  }

  /** Every byte of a segment is a mapped byte. */
  ghost predicate Sound(segment: Segment, bytes: map<nat, Byte>) {
    forall a: nat :: segment.Covers(a) ==> a in bytes && bytes[a] == segment.bytes[a - segment.address]
  }

  /** The segments hold exactly the mapped addresses, with their bytes. */
  ghost predicate Holds(segments: seq<Segment>, bytes: map<nat, Byte>) {
    && (forall i :: 0 <= i < |segments| ==> Sound(segments[i], bytes))
    && (forall a: nat :: a in bytes ==> Covered(segments, a))
  }

  ghost predicate Canonical(segments: seq<Segment>, bytes: map<nat, Byte>) {
    Separated(segments) && Holds(segments, bytes)
  }

  // --- Building ------------------------------------------------------------------------------

  predicate Ascending(s: seq<nat>) {
    forall i, j :: 0 <= i < j < |s| ==> s[i] < s[j]
  }

  function Insert(s: seq<nat>, a: nat): seq<nat> {
    if s == [] || a <= s[0] then [a] + s else [s[0]] + Insert(s[1..], a)
  }

  function Sort(s: seq<nat>): seq<nat> {
    if s == [] then [] else Insert(Sort(s[1..]), s[0])
  }

  lemma {:induction false} InsertMembers(s: seq<nat>, a: nat)
    ensures forall x: nat :: x in Insert(s, a) <==> x == a || x in s
  {
    if s != [] && a > s[0] {
      InsertMembers(s[1..], a);
      assert s == [s[0]] + s[1..];
    }
  }

  lemma {:induction false} InsertAscends(s: seq<nat>, a: nat)
    requires Ascending(s) && a !in s
    ensures Ascending(Insert(s, a))
  {
    if s != [] && a > s[0] {
      InsertAscends(s[1..], a);
      InsertMembers(s[1..], a);
      var tail := Insert(s[1..], a);
      forall i | 0 <= i < |tail|
        ensures s[0] < tail[i]
      {
        assert tail[i] in tail;
      }
    }
  }

  lemma {:induction false} SortSorts(s: seq<nat>)
    requires forall i, j :: 0 <= i < j < |s| ==> s[i] != s[j]
    ensures Ascending(Sort(s))
    ensures forall x: nat :: x in Sort(s) <==> x in s
  {
    if s != [] {
      SortSorts(s[1..]);
      InsertMembers(Sort(s[1..]), s[0]);
      assert s == [s[0]] + s[1..];
      InsertAscends(Sort(s[1..]), s[0]);
    }
  }

  /** Whether the keys already come in order; distinct keys then ascend. */
  method IsMonotonic(keys: seq<nat>) returns (monotonic: bool)
    requires forall i, j :: 0 <= i < j < |keys| ==> keys[i] != keys[j]
    ensures monotonic <==> Ascending(keys)
  {
    monotonic := true;
    var previous: Option<nat> := None;
    var i := 0;
    while i < |keys|
      invariant 0 <= i <= |keys|
      invariant monotonic
      invariant previous == if i == 0 then None else Some(keys[i - 1])
      invariant Ascending(keys[..i])
    {
      if previous.Some? && keys[i] < previous.value {
        assert keys[i - 1] > keys[i];
        return false;
      }
      assert forall j :: 0 <= j < i ==> keys[..i][j] == keys[j];
      previous := Some(keys[i]);
      i := i + 1;
    }
    assert keys[..i] == keys;
  }

  datatype Range = Range(start: nat, end: nat)

  predicate RangesSeparated(ranges: seq<Range>) {
    && (forall i :: 0 <= i < |ranges| ==> ranges[i].start < ranges[i].end)
    && (forall i, j :: 0 <= i < j < |ranges| ==> ranges[i].end < ranges[j].start)
  }

  predicate InRanges(ranges: seq<Range>, a: nat) {
    exists i :: 0 <= i < |ranges| && ranges[i].start <= a < ranges[i].end
  }

  /** Maximal runs of consecutive addresses. */
  method BuildRanges(ordered: seq<nat>) returns (ranges: seq<Range>)
    requires Ascending(ordered)
    ensures RangesSeparated(ranges)
    ensures forall a: nat :: a in ordered <==> InRanges(ranges, a)
  {
    ranges := [];
    var start: Option<nat> := None;
    var end := 0;
    for i := 0 to |ordered|
      invariant RangesSeparated(ranges)
      invariant start.None? <==> i == 0
      invariant start.None? ==> ranges == []
      invariant start.Some? ==> start.value < end && end == ordered[i - 1] + 1
      invariant start.Some? && ranges != [] ==> ranges[|ranges| - 1].end < start.value
      invariant forall a: nat :: a in ordered[..i] <==>
                  InRanges(ranges, a) || (start.Some? && start.value <= a < end)
    {
      ghost var before, from, until := ranges, start, end;
      if start.None? || ordered[i] != end {
        if start.Some? {
          ranges := ranges + [Range(start.value, end)];
        }
        start := Some(ordered[i]);
      }
      end := ordered[i] + 1;
      assert ordered[..i + 1] == ordered[..i] + [ordered[i]];
      AppendedRange(before, ranges, from, until);
    }
    assert ordered[..|ordered|] == ordered;
    if start.Some? {
      ghost var before := ranges;
      ranges := ranges + [Range(start.value, end)];
      AppendedRange(before, ranges, start, end);
    }
  }

  lemma {:induction false} AppendedRange(before: seq<Range>, after: seq<Range>, start: Option<nat>, end: nat)
    requires after == before || (start.Some? && after == before + [Range(start.value, end)])
    ensures forall a: nat :: InRanges(after, a) <==>
              InRanges(before, a) || (after != before && start.value <= a < end)
  {
    if after != before {
      forall a: nat
        ensures InRanges(after, a) <==> InRanges(before, a) || start.value <= a < end
      {
        if start.value <= a < end {
          assert after[|before|].start <= a < after[|before|].end;
        }
        if InRanges(before, a) {
          var i :| 0 <= i < |before| && before[i].start <= a < before[i].end;
          assert after[i] == before[i];
        }
      }
    }
  }

  method CopyRange(output: ByteMap, range: Range) returns (segment: Segment)
    requires range.start < range.end
    requires forall a: nat :: range.start <= a < range.end ==> a in output.bytes
    ensures CopyOf(segment, range, output.bytes)
  {
    var bytes := new Byte[range.end - range.start];
    for address := range.start to range.end
      invariant forall a: nat :: range.start <= a < address ==> bytes[a - range.start] == output.bytes[a]
    {
      bytes[address - range.start] := output.bytes[address];
    }
    segment := Segment(range.start, bytes[..]);
  }

  /** A segment holding the bytes of a range. */
  ghost predicate CopyOf(segment: Segment, range: Range, bytes: map<nat, Byte>) {
    segment.address == range.start && segment.End() == range.end && Sound(segment, bytes)
  }

  lemma {:induction false} CopiesAreCanonical(segments: seq<Segment>, ranges: seq<Range>, bytes: map<nat, Byte>)
    requires RangesSeparated(ranges)
    requires |segments| == |ranges| && forall k :: 0 <= k < |ranges| ==> CopyOf(segments[k], ranges[k], bytes)
    requires forall a: nat :: a in bytes <==> InRanges(ranges, a)
    ensures Canonical(segments, bytes)
  {
    forall a: nat | a in bytes
      ensures Covered(segments, a)
    {
      assert InRanges(ranges, a);
      var i :| 0 <= i < |ranges| && ranges[i].start <= a < ranges[i].end;
      assert segments[i].Covers(a);
    }
  }

  /** The segments of an output map, whichever path supplies its keys in order. */
  method BuildSegments(output: ByteMap) returns (segments: seq<Segment>)
    requires output.Valid()
    ensures Canonical(segments, output.bytes)
  {
    var monotonic := IsMonotonic(output.order);
    var ordered := output.order;
    if !monotonic {
      ordered := Sort(output.order);
      SortSorts(output.order);
    }
    var ranges := BuildRanges(ordered);
    segments := [];
    for i := 0 to |ranges|
      invariant |segments| == i
      invariant forall k :: 0 <= k < i ==> CopyOf(segments[k], ranges[k], output.bytes)
    {
      assert forall a: nat :: ranges[i].start <= a < ranges[i].end ==> InRanges(ranges, a);
      var segment := CopyRange(output, ranges[i]);
      segments := segments + [segment];
    }
    CopiesAreCanonical(segments, ranges, output.bytes);
  }

  // --- Uniqueness --------------------------------------------------------------------------------

  lemma {:induction false} FirstSegmentStart(segments: seq<Segment>, bytes: map<nat, Byte>, a: nat)
    requires Canonical(segments, bytes) && segments != [] && a in bytes
    ensures segments[0].address in bytes && segments[0].address <= a
  {
    assert Sound(segments[0], bytes) && segments[0].Covers(segments[0].address);
    var i :| 0 <= i < |segments| && segments[i].Covers(a);
  }

  lemma {:induction false} AfterSegmentIsFree(segments: seq<Segment>, bytes: map<nat, Byte>)
    requires Canonical(segments, bytes) && segments != []
    ensures segments[0].End() !in bytes
  {
    if segments[0].End() in bytes {
      var i :| 0 <= i < |segments| && segments[i].Covers(segments[0].End());
      assert false;
    }
  }

  lemma {:induction false} FirstSegmentLongEnough(s: seq<Segment>, t: seq<Segment>, bytes: map<nat, Byte>)
    requires Canonical(s, bytes) && Canonical(t, bytes) && s != [] && t != []
    requires s[0].address == t[0].address
    ensures s[0].End() >= t[0].End()
  {
    AfterSegmentIsFree(s, bytes);
    if s[0].End() < t[0].End() {
      assert Sound(t[0], bytes) && t[0].Covers(s[0].End());
    }
  }

  lemma {:induction false} SameFirstSegment(s: seq<Segment>, t: seq<Segment>, bytes: map<nat, Byte>)
    requires Canonical(s, bytes) && Canonical(t, bytes) && s != [] && t != []
    ensures s[0] == t[0]
  {
    assert Sound(s[0], bytes) && s[0].Covers(s[0].address);
    assert Sound(t[0], bytes) && t[0].Covers(t[0].address);
    FirstSegmentStart(s, bytes, t[0].address);
    FirstSegmentStart(t, bytes, s[0].address);
    FirstSegmentLongEnough(s, t, bytes);
    FirstSegmentLongEnough(t, s, bytes);
    SameFirstBytes(s, t, bytes);
  }

  lemma {:induction false} SameFirstBytes(s: seq<Segment>, t: seq<Segment>, bytes: map<nat, Byte>)
    requires Canonical(s, bytes) && Canonical(t, bytes) && s != [] && t != []
    requires s[0].address == t[0].address && s[0].End() == t[0].End()
    ensures s[0].bytes == t[0].bytes
  {
    forall k | 0 <= k < |s[0].bytes|
      ensures s[0].bytes[k] == t[0].bytes[k]
    {
      var a: nat := s[0].address + k;
      assert Sound(s[0], bytes) && Sound(t[0], bytes);
      assert s[0].Covers(a) && bytes[a] == s[0].bytes[a - s[0].address];
      assert t[0].Covers(a) && bytes[a] == t[0].bytes[a - t[0].address];
    }
  }

  function Uncovered(segment: Segment, bytes: map<nat, Byte>): map<nat, Byte> {
    map a: nat | a in bytes && !segment.Covers(a) :: bytes[a]
  }

  lemma {:induction false} DropFirstSeparated(s: seq<Segment>)
    requires Separated(s) && s != []
    ensures Separated(s[1..])
  {
    assert forall i :: 0 <= i < |s[1..]| ==> s[1..][i] == s[i + 1];
  }

  lemma {:induction false} DropFirstHolds(s: seq<Segment>, bytes: map<nat, Byte>)
    requires Canonical(s, bytes) && s != []
    ensures Holds(s[1..], Uncovered(s[0], bytes))
  {
    var tail, rest := s[1..], Uncovered(s[0], bytes);
    forall i | 0 <= i < |tail|
      ensures Sound(tail[i], rest)
    {
      assert tail[i] == s[i + 1] && Sound(s[i + 1], bytes) && s[0].End() < s[i + 1].address;
    }
    forall a: nat | a in rest
      ensures Covered(tail, a)
    {
      var i :| 0 <= i < |s| && s[i].Covers(a);
      assert tail[i - 1].Covers(a);
    }
  }

  lemma {:induction false} EmptyExactly(s: seq<Segment>, bytes: map<nat, Byte>)
    requires Canonical(s, bytes)
    ensures s == [] <==> bytes == map[]
  {
    if s != [] {
      assert Sound(s[0], bytes) && s[0].Covers(s[0].address);
    } else {
      assert forall a: nat :: !Covered(s, a);
      assert forall a: nat :: a !in bytes;
    }
  }

  lemma {:induction false} TailsAreCanonical(s: seq<Segment>, t: seq<Segment>, bytes: map<nat, Byte>)
    requires Canonical(s, bytes) && Canonical(t, bytes) && s != [] && t != []
    ensures s[0] == t[0]
    ensures Canonical(s[1..], Uncovered(s[0], bytes)) && Canonical(t[1..], Uncovered(s[0], bytes))
  {
    SameFirstSegment(s, t, bytes);
    DropFirstSeparated(s);
    DropFirstSeparated(t);
    DropFirstHolds(s, bytes);
    DropFirstHolds(t, bytes);
  }

  /** A set of bytes has exactly one canonical segment list, so the order in
      which the bytes were written does not matter. */
  lemma {:induction false} CanonicalIsUnique(s: seq<Segment>, t: seq<Segment>, bytes: map<nat, Byte>)
    requires Canonical(s, bytes) && Canonical(t, bytes)
    ensures s == t
    decreases |s|
  {
    EmptyExactly(s, bytes);
    EmptyExactly(t, bytes);
    if s != [] {
      TailsAreCanonical(s, t, bytes);
      CanonicalIsUnique(s[1..], t[1..], Uncovered(s[0], bytes));
      HeadAndTail(s, t);
    }
  }

  lemma {:induction false} HeadAndTail(s: seq<Segment>, t: seq<Segment>)
    requires s != [] && t != [] && s[0] == t[0] && s[1..] == t[1..]
    ensures s == t
  {
    assert s == [s[0]] + s[1..] && t == [t[0]] + t[1..];
  }

  // --- The image -----------------------------------------------------------------------------------

  datatype Image = Image(loadAddress: nat, entryPoint: nat, endAddress: nat, segments: seq<Segment>)

  /** Addresses cut to 32 bits, empty segments dropped. */
  function Normalized(segments: seq<Segment>): seq<Segment> {
    if segments == [] then []
    else
      (if segments[0].bytes == [] then []
       else [Segment(segments[0].address % ADDRESS_SPACE, segments[0].bytes)])
      + Normalized(segments[1..])
  }

  predicate ByAddress(s: seq<Segment>) {
    forall i, j :: 0 <= i < j < |s| ==> s[i].address <= s[j].address
  }

  function InsertSegment(s: seq<Segment>, x: Segment): seq<Segment> {
    if s == [] || x.address <= s[0].address then [x] + s else [s[0]] + InsertSegment(s[1..], x)
  }

  /** A stable sort by address. */
  function SortSegments(s: seq<Segment>): seq<Segment> {
    if s == [] then [] else InsertSegment(SortSegments(s[1..]), s[0])
  }

  lemma {:induction false} InsertSegmentAdds(s: seq<Segment>, x: Segment)
    ensures multiset(InsertSegment(s, x)) == multiset(s) + multiset{x}
  {
    if s != [] && x.address > s[0].address {
      InsertSegmentAdds(s[1..], x);
      assert s == [s[0]] + s[1..];
    }
  }

  lemma {:induction false} InsertSegmentSorts(s: seq<Segment>, x: Segment)
    requires ByAddress(s)
    ensures ByAddress(InsertSegment(s, x))
  {
    if s != [] && x.address > s[0].address {
      var tail := InsertSegment(s[1..], x);
      InsertSegmentSorts(s[1..], x);
      InsertSegmentAdds(s[1..], x);
      forall j | 0 <= j < |tail|
        ensures s[0].address <= tail[j].address
      {
        assert tail[j] in multiset(tail);
      }
    }
  }

  lemma {:induction false} SortSegmentsSorts(s: seq<Segment>)
    ensures ByAddress(SortSegments(s))
    ensures multiset(SortSegments(s)) == multiset(s)
  {
    if s != [] {
      SortSegmentsSorts(s[1..]);
      InsertSegmentSorts(SortSegments(s[1..]), s[0]);
      InsertSegmentAdds(SortSegments(s[1..]), s[0]);
      assert s == [s[0]] + s[1..];
    }
  }

  /** No segment reaches into a later one. */
  predicate Disjoint(s: seq<Segment>) {
    forall i, j :: 0 <= i < j < |s| ==> s[i].End() <= s[j].address
  }

  /** Looks at neighbours only. */
  method HasOverlap(normalized: seq<Segment>) returns (overlap: bool)
    requires ByAddress(normalized)
    ensures overlap <==> !Disjoint(normalized)
  {
    var index := 1;
    while index < |normalized|
      invariant 1 <= index
      invariant forall i, j :: 0 <= i < j < index && j < |normalized| ==> normalized[i].End() <= normalized[j].address
    {
      if normalized[index - 1].End() > normalized[index].address {
        return true;
      }
      assert forall i :: 0 <= i < index - 1 ==> normalized[i].End() <= normalized[index - 1].address;
      index := index + 1;
    }
    overlap := false;
  }

  /** Rejects segments that overlap once put in order, and nothing else. */
  method CreateSegmentedProgramImage(segments: seq<Segment>, entryPoint: Option<nat>) returns (r: Result<Image>)
    ensures r.Ok? <==> Disjoint(SortSegments(Normalized(segments)))
    ensures r.Ok? ==>
              && r.value.segments == SortSegments(Normalized(segments))
              && (r.value.segments != [] ==>
                    && r.value.loadAddress == r.value.segments[0].address
                    && r.value.endAddress == r.value.segments[|r.value.segments| - 1].End() % ADDRESS_SPACE)
              && r.value.entryPoint == entryPoint.GetOr(r.value.loadAddress) % ADDRESS_SPACE
  {
    var normalized := SortSegments(Normalized(segments));
    SortSegmentsSorts(Normalized(segments));
    var overlap := HasOverlap(normalized);
    if overlap {
      return Err("Program image segments must not overlap");
    }
    var first := if normalized == [] then Segment(entryPoint.GetOr(0), []) else normalized[0];
    var last := if normalized == [] then first else normalized[|normalized| - 1];
    r := Ok(Image(first.address, entryPoint.GetOr(first.address) % ADDRESS_SPACE, last.End() % ADDRESS_SPACE, normalized));
  }

  lemma {:induction false} SeparatedNormalized(segments: seq<Segment>)
    requires Separated(segments)
    requires forall i :: 0 <= i < |segments| ==> segments[i].End() <= ADDRESS_SPACE
    ensures Normalized(segments) == segments
    ensures SortSegments(segments) == segments
  {
    if segments != [] {
      var tail := segments[1..];
      assert forall i :: 0 <= i < |tail| ==> tail[i] == segments[i + 1];
      SeparatedNormalized(tail);
      assert segments[0].address < segments[0].End();
      assert segments == [segments[0]] + tail;
    }
  }

  /** The assembler's segments pass through the image unchanged: they are
      never rejected, reordered or cut. */
  lemma {:induction false} CanonicalSegmentsAreAccepted(segments: seq<Segment>, bytes: map<nat, Byte>)
    requires Canonical(segments, bytes)
    requires forall a: nat :: a in bytes ==> a < ADDRESS_SPACE
    ensures Normalized(segments) == segments
    ensures SortSegments(segments) == segments && Disjoint(segments)
  {
    forall i | 0 <= i < |segments|
      ensures segments[i].End() <= ADDRESS_SPACE
    {
      assert Sound(segments[i], bytes) && segments[i].Covers(segments[i].End() - 1);
    }
    SeparatedNormalized(segments);
  }
}
