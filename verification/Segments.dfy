/** Byte ranges of a segmented download: how a size is split, when a stored map
    is accepted, and what the map decides for a resume. */
module Segments {
  import opened Sums
  import opened Wrappers

  const U64_MAX: nat := 0xFFFF_FFFF_FFFF_FFFF
  const U32_MAX: nat := 0xFFFF_FFFF
  type U64 = x: nat | x <= U64_MAX
  type U32 = x: nat | x <= U32_MAX

  const MIN_SEGMENT_SIZE: U64 := 1024 * 1024

  function SatAdd(a: U64, b: U64): U64 { if a + b <= U64_MAX then a + b else U64_MAX }

  function SatSub(a: U64, b: U64): U64 { if a >= b then a - b else 0 }

  datatype SegmentState = Pending | Active | Completed | Failed

  /** The inclusive byte range `[start, end]` and how much of its front is written. */
  datatype Segment = Segment(index: U32, start: U64, end: U64, written: U64, state: SegmentState) {
    function Length(): U64 { SatAdd(SatSub(end, start), 1) }

    function RemainingStart(): U64 { SatAdd(start, written) }
  }

  datatype SegmentMap = SegmentMap(totalBytes: U64, segmentCount: U32, segments: seq<Segment>, preallocated: bool)

  function Written(s: Segment): int { s.written }

  function LengthOf(s: Segment): int { s.end - s.start + 1 }

  function WrittenSum(m: SegmentMap): int { Sum(m.segments, Written) }

  // ----- Equality up to progress

  predicate StructureEq(a: SegmentMap, b: SegmentMap) {
    && a.totalBytes == b.totalBytes && a.segmentCount == b.segmentCount && a.preallocated == b.preallocated
    && |a.segments| == |b.segments|
    && forall i :: 0 <= i < |a.segments| ==>
                     && a.segments[i].index == b.segments[i].index && a.segments[i].start == b.segments[i].start
                     && a.segments[i].end == b.segments[i].end && a.segments[i].state == b.segments[i].state
  }

  function EraseWritten(m: SegmentMap): SegmentMap {
    m.(segments := seq(|m.segments|, i requires 0 <= i < |m.segments| => m.segments[i].(written := 0)))
  }

  /** Two maps have the same structure exactly when they differ in nothing but `written`. */
  lemma StructureEqIgnoresOnlyWritten(a: SegmentMap, b: SegmentMap)
    ensures StructureEq(a, b) <==> EraseWritten(a) == EraseWritten(b)
  {
    if EraseWritten(a) == EraseWritten(b) {
      assert |a.segments| == |EraseWritten(a).segments| == |b.segments|;
      forall i | 0 <= i < |a.segments|
        ensures a.segments[i].(written := 0) == b.segments[i].(written := 0)
      {
        assert EraseWritten(a).segments[i] == EraseWritten(b).segments[i];
      }
    }
  }

  // ----- Consistency

  /** The check from segment `i` on, when the next byte to cover is `next`. */
  predicate ChainedFrom(segments: seq<Segment>, i: nat, next: U64, total: U64)
    requires i <= |segments|
    decreases |segments| - i
  {
    if i == |segments| then next == total
    else
      var s := segments[i];
      && s.index == i && s.start == next && s.start <= s.end && s.written <= s.Length()
      && ChainedFrom(segments, i + 1, SatAdd(s.end, 1), total)
  }

  predicate Consistent(m: SegmentMap) {
    && m.segmentCount == |m.segments|
    && (m.totalBytes == 0 ==> m.segments == [])
    && (m.totalBytes != 0 ==> m.segments != [] && ChainedFrom(m.segments, 0, 0, m.totalBytes))
  }

  /** `is_consistent`, with the running `next` of the source. */
  method IsConsistent(m: SegmentMap) returns (ok: bool)
    ensures ok <==> Consistent(m)
  {
    if m.segmentCount != |m.segments| {
      return false;
    }
    if m.totalBytes == 0 {
      return m.segments == [];
    }
    if m.segments == [] {
      return false;
    }
    var next: U64 := 0;
    for i := 0 to |m.segments|
      invariant ChainedFrom(m.segments, 0, 0, m.totalBytes) <==> ChainedFrom(m.segments, i, next, m.totalBytes)
    {
      var s := m.segments[i];
      if s.index != i || s.start != next || s.end < s.start {
        return false;
      }
      if s.written > s.Length() {
        return false;
      }
      next := SatAdd(s.end, 1);
    }
    return next == m.totalBytes;
  }

  /** The segments cover `[0, total)` in order, without gap or overlap, and none claims more than its length. */
  ghost predicate Tiles(m: SegmentMap) {
    && m.segmentCount == |m.segments|
    && (m.segments == [] <==> m.totalBytes == 0)
    && (forall i :: 0 <= i < |m.segments| ==> SegmentTiles(m, i))
  }

  ghost predicate SegmentTiles(m: SegmentMap, i: nat)
    requires i < |m.segments|
  {
    var s := m.segments[i];
    && s.index == i
    && s.start == (if i == 0 then 0 else m.segments[i - 1].end + 1)
    && s.start <= s.end
    && (if i == |m.segments| - 1 then s.end + 1 == m.totalBytes else s.end + 1 < m.totalBytes)
    && s.written <= s.end - s.start + 1
  }

  lemma {:induction false} EndsIncrease(segments: seq<Segment>, i: nat, next: U64, total: U64)
    requires i < |segments| && ChainedFrom(segments, i, next, total)
    ensures segments[i].end <= segments[|segments| - 1].end
    decreases |segments| - i
  {
    if i + 1 < |segments| {
      EndsIncrease(segments, i + 1, SatAdd(segments[i].end, 1), total);
    }
  }

  lemma {:induction false} ChainTiles(m: SegmentMap, i: nat, next: U64)
    requires m.segmentCount == |m.segments| && i < |m.segments|
    requires ChainedFrom(m.segments, i, next, m.totalBytes)
    requires next == (if i == 0 then 0 else m.segments[i - 1].end + 1)
    requires m.segments[|m.segments| - 1].end < U64_MAX
    ensures forall j :: i <= j < |m.segments| ==> SegmentTiles(m, j)
    decreases |m.segments| - i
  {
    var s := m.segments[i];
    EndsIncrease(m.segments, i, next, m.totalBytes);
    if i + 1 < |m.segments| {
      ChainTiles(m, i + 1, SatAdd(s.end, 1));
      assert SegmentTiles(m, i + 1);
    }
    forall j | i <= j < |m.segments| ensures SegmentTiles(m, j) {
      assert j == i || i + 1 <= j;
    }
  }

  lemma {:induction false} TilesChain(m: SegmentMap, i: nat, next: U64)
    requires Tiles(m) && i <= |m.segments| && m.segments != []
    requires next == (if i == 0 then 0 else m.segments[i - 1].end + 1)
    ensures ChainedFrom(m.segments, i, next, m.totalBytes)
    decreases |m.segments| - i
  {
    if i > 0 {
      assert SegmentTiles(m, i - 1);
    }
    if i < |m.segments| {
      assert SegmentTiles(m, i);
      TilesChain(m, i + 1, SatAdd(m.segments[i].end, 1));
    }
  }

  /** A map is accepted and does not end at the largest offset exactly when its
      segments tile the file. The excluded maps are the ones on which the
      saturating step past the last byte stops moving. */
  lemma ConsistentIffTiles(m: SegmentMap)
    ensures Tiles(m) <==> Consistent(m) && (m.segments == [] || m.segments[|m.segments| - 1].end < U64_MAX)
  {
    if Consistent(m) && m.segments != [] && m.segments[|m.segments| - 1].end < U64_MAX {
      ChainTiles(m, 0, 0);
    }
    if Tiles(m) && m.segments != [] {
      TilesChain(m, 0, 0);
      assert SegmentTiles(m, |m.segments| - 1);
    }
  }

  lemma {:induction false} ChainReachesEnd(segments: seq<Segment>, i: nat, next: U64, total: U64)
    requires i < |segments| && ChainedFrom(segments, i, next, total)
    ensures total == SatAdd(segments[|segments| - 1].end, 1)
    decreases |segments| - i
  {
    if i + 1 < |segments| {
      ChainReachesEnd(segments, i + 1, SatAdd(segments[i].end, 1), total);
    }
  }

  /** For every size a caller can meet below the largest one, acceptance is tiling. */
  lemma ConsistentIsTilingBelowMax(m: SegmentMap)
    requires m.totalBytes < U64_MAX
    ensures Consistent(m) <==> Tiles(m)
  {
    ConsistentIffTiles(m);
    if Consistent(m) && m.segments != [] {
      ChainReachesEnd(m.segments, 0, 0, m.totalBytes);
    }
  }

  /** At the largest size the check also accepts a map with one byte too many. */
  lemma SaturationAcceptsAnOverlongMap()
    ensures var m := SegmentMap(U64_MAX, 1, [Segment(0, 0, U64_MAX, 0, Pending)], true);
            Consistent(m) && !Tiles(m)
  {
    var m := SegmentMap(U64_MAX, 1, [Segment(0, 0, U64_MAX, 0, Pending)], true);
    assert ChainedFrom(m.segments, 1, U64_MAX, U64_MAX);
    ConsistentIffTiles(m);
  }

  // ----- Progress sums

  lemma {:induction false} PrefixSums(m: SegmentMap, k: nat)
    requires Tiles(m) && k <= |m.segments|
    ensures Sum(m.segments[..k], LengthOf) == if k == 0 then 0 else m.segments[k - 1].end + 1
    ensures Sum(m.segments[..k], Written) <= Sum(m.segments[..k], LengthOf)
    ensures Sum(m.segments[..k], Written) == Sum(m.segments[..k], LengthOf)
            <==> forall i :: 0 <= i < k ==> m.segments[i].written == LengthOf(m.segments[i])
  {
    if k > 0 {
      PrefixSums(m, k - 1);
      assert m.segments[..k] == m.segments[..k - 1] + [m.segments[k - 1]];
      SumAppend(m.segments[..k - 1], m.segments[k - 1], LengthOf);
      SumAppend(m.segments[..k - 1], m.segments[k - 1], Written);
      assert SegmentTiles(m, k - 1);
    }
  }

  /** The written bytes of a tiling map never exceed the file, and reach it only when every segment is full. */
  lemma WrittenSumReachesTotal(m: SegmentMap)
    requires Tiles(m)
    ensures 0 <= WrittenSum(m) <= m.totalBytes
    ensures WrittenSum(m) == m.totalBytes
            <==> forall i :: 0 <= i < |m.segments| ==> m.segments[i].written == LengthOf(m.segments[i])
  {
    PrefixSums(m, |m.segments|);
    assert m.segments[..|m.segments|] == m.segments;
    SumMonotone(m.segments, (s: Segment) => 0, Written);
    SumZero(m.segments, (s: Segment) => 0);
    if m.segments != [] {
      assert SegmentTiles(m, |m.segments| - 1);
    }
  }

  // ----- Partition

  function SegmentTotal(total: U64, n: U32): (count: nat)
    requires total > 0
    ensures 1 <= count && (count <= n || count == 1)
    ensures count <= total
  {
    var requested := if n == 0 then 1 else n;
    var bySize := if total / MIN_SEGMENT_SIZE == 0 then 1 else total / MIN_SEGMENT_SIZE;
    if requested < bySize then requested else bySize
  }

  /** The number of segments is the largest that was asked for and keeps each of them at 1 MiB at least;
      one when no number does. */
  lemma SegmentTotalIsLargest(total: U64, n: U32)
    requires total > 0
    ensures var count := SegmentTotal(total, n);
            && (count == 1 || (count <= n && count * 1_048_576 <= total))
            && forall k: nat :: k <= n && k * 1_048_576 <= total ==> k <= count
  {
    forall k: nat | k <= n && k * 1_048_576 <= total ensures k <= SegmentTotal(total, n) {
      AtMostBySize(total, k);
    }
    BySizeFits(total);
    if 1 < SegmentTotal(total, n) {
      assert SegmentTotal(total, n) * MIN_SEGMENT_SIZE <= total / MIN_SEGMENT_SIZE * MIN_SEGMENT_SIZE;
    }
  }

  lemma AtMostBySize(total: nat, k: nat)
    requires k * MIN_SEGMENT_SIZE <= total
    ensures k <= total / MIN_SEGMENT_SIZE
  {
    assert total == MIN_SEGMENT_SIZE * (total / MIN_SEGMENT_SIZE) + total % MIN_SEGMENT_SIZE;
  }

  lemma BySizeFits(total: nat)
    ensures total / MIN_SEGMENT_SIZE * MIN_SEGMENT_SIZE <= total
  {
  }

  function PieceLength(total: nat, count: nat, i: nat): nat
    requires count > 0
  {
    if i < total % count then total / count + 1 else total / count
  }

  function Offset(total: nat, count: nat, i: nat): nat
    requires count > 0
  {
    if i == 0 then 0 else Offset(total, count, i - 1) + PieceLength(total, count, i - 1)
  }

  lemma {:induction false} OffsetClosedForm(total: nat, count: nat, i: nat)
    requires count > 0
    ensures Offset(total, count, i) == i * (total / count) + if i < total % count then i else total % count
  {
    if i > 0 {
      OffsetClosedForm(total, count, i - 1);
      assert i * (total / count) == (i - 1) * (total / count) + total / count;
    }
  }

  lemma {:induction false} OffsetsIncrease(total: nat, count: nat, i: nat, j: nat)
    requires count > 0 && i <= j
    ensures Offset(total, count, i) <= Offset(total, count, j)
  {
    if i < j {
      OffsetsIncrease(total, count, i, j - 1);
    }
  }

  lemma OffsetsEndAtTotal(total: nat, count: nat)
    requires count > 0
    ensures Offset(total, count, count) == total
    ensures forall i :: 0 <= i <= count ==> Offset(total, count, i) <= total
    ensures total >= count ==> forall i :: 0 <= i < count ==> PieceLength(total, count, i) > 0
  {
    OffsetClosedForm(total, count, count);
    assert total == count * (total / count) + total % count;
    if total >= count {
      AtLeastOne(total, count);
    }
    forall i | 0 <= i <= count ensures Offset(total, count, i) <= total {
      OffsetsIncrease(total, count, i, count);
    }
  }

  lemma AtLeastOne(total: nat, count: nat)
    requires 0 < count <= total
    ensures total / count > 0
  {
  }

  function Piece(total: U64, count: nat, i: nat): Segment
    requires 0 < count <= U32_MAX && i < count <= total
  {
    OffsetsEndAtTotal(total, count);
    assert Offset(total, count, i + 1) <= total;
    Segment(i, Offset(total, count, i), Offset(total, count, i + 1) - 1, 0, Pending)
  }

  function Partition(total: U64, n: U32): SegmentMap {
    if total == 0 then SegmentMap(0, 0, [], false)
    else
      var count := SegmentTotal(total, n);
      SegmentMap(total, count, seq(count, i requires 0 <= i < count => Piece(total, count, i)), false)
  }

  lemma NextPiece(total: U64, count: nat, i: nat)
    requires 0 < count <= U32_MAX && i < count <= total
    ensures Offset(total, count, i) + PieceLength(total, count, i) == Offset(total, count, i + 1) <= total
    ensures PieceLength(total, count, i) > 0
  {
    OffsetsEndAtTotal(total, count);
  }

  /** `partition`, with the running `offset` of the source. */
  method PartitionLoop(total: U64, n: U32) returns (m: SegmentMap)
    ensures m == Partition(total, n)
  {
    if total == 0 {
      return SegmentMap(0, 0, [], false);
    }
    var requested := if n == 0 then 1 else n;
    var bySize := if total / MIN_SEGMENT_SIZE == 0 then 1 else total / MIN_SEGMENT_SIZE;
    var count := if requested < bySize then requested else bySize;
    assert count == SegmentTotal(total, n);
    var segments := PartitionPieces(total, count);
    return SegmentMap(total, count, segments, false);
  }

  method PartitionPieces(total: U64, count: nat) returns (segments: seq<Segment>)
    requires 0 < count <= U32_MAX && count <= total
    ensures segments == seq(count, i requires 0 <= i < count => Piece(total, count, i))
  {
    var base := total / count;
    var remainder := total % count;
    var offset := 0;
    segments := [];
    for index := 0 to count
      invariant offset == Offset(total, count, index)
      invariant |segments| == index && forall i :: 0 <= i < index ==> segments[i] == Piece(total, count, i)
    {
      var len := if index < remainder then base + 1 else base;
      NextPiece(total, count, index);
      var end := offset + len - 1;
      assert end == Offset(total, count, index + 1) - 1;
      segments := segments + [Segment(index, offset, end, 0, Pending)];
      offset := offset + len;
    }
  }

  /** A fresh partition tiles the file, has written nothing, and its pieces are
      equal up to one byte; none is shorter than the minimum unless it is the only one. */
  lemma PartitionTiles(total: U64, n: U32)
    ensures var m := Partition(total, n);
            && Tiles(m) && Consistent(m) && WrittenSum(m) == 0
            && (forall i, j :: 0 <= i < |m.segments| && 0 <= j < |m.segments| ==>
                                 LengthOf(m.segments[i]) <= LengthOf(m.segments[j]) + 1)
            && (|m.segments| > 1 ==> forall i :: 0 <= i < |m.segments| ==> LengthOf(m.segments[i]) >= MIN_SEGMENT_SIZE)
  {
    var m := Partition(total, n);
    if total > 0 {
      var count := SegmentTotal(total, n);
      forall i | 0 <= i < count
        ensures SegmentTiles(m, i) && LengthOf(m.segments[i]) == PieceLength(total, count, i)
      {
        PieceTiles(total, n, i);
      }
      PieceLengths(total, n);
    }
    assert Tiles(m);
    ConsistentIffTiles(m);
    SumZero(m.segments, Written);
  }

  /** A partition is of the whole file, and a fresh one: nothing preallocated, no segment begun. */
  lemma PartitionIsFresh(total: U64, n: U32)
    ensures var m := Partition(total, n);
            && m.totalBytes == total && !m.preallocated
            && |m.segments| == (if total == 0 then 0 else SegmentTotal(total, n))
            && forall i :: 0 <= i < |m.segments| ==> m.segments[i].state == Pending && m.segments[i].written == 0
  {
  }

  lemma PieceLengths(total: U64, n: U32)
    requires total > 0
    ensures var count := SegmentTotal(total, n);
            && (forall i, j :: 0 <= i < count && 0 <= j < count ==>
                                 PieceLength(total, count, i) <= PieceLength(total, count, j) + 1)
            && (count > 1 ==> forall i :: 0 <= i < count ==> PieceLength(total, count, i) >= MIN_SEGMENT_SIZE)
  {
    if SegmentTotal(total, n) > 1 {
      BigEnough(total, SegmentTotal(total, n));
    }
  }

  /** One piece of the partition lies where its neighbours leave off. */
  lemma PieceTiles(total: U64, n: U32, i: nat)
    requires total > 0 && i < SegmentTotal(total, n)
    ensures var m := Partition(total, n);
            && SegmentTiles(m, i)
            && LengthOf(m.segments[i]) == PieceLength(total, SegmentTotal(total, n), i)
            && m.segments[i].written == 0
  {
    var m := Partition(total, n);
    var count := SegmentTotal(total, n);
    NextPiece(total, count, i);
    OffsetsEndAtTotal(total, count);
    assert m.segments[i] == Piece(total, count, i);
    if i > 0 {
      assert m.segments[i - 1] == Piece(total, count, i - 1);
    }
    if i + 1 < count {
      NextPiece(total, count, i + 1);
    }
  }

  lemma BigEnough(total: nat, count: nat)
    requires 0 < count <= total / MIN_SEGMENT_SIZE
    ensures total / count >= MIN_SEGMENT_SIZE
  {
    assert count * MIN_SEGMENT_SIZE <= total;
  }

  // ----- Resume

  datatype ResumeOracle = FreshSingle | LegacySingle | Multi(segmentMap: SegmentMap) | RestartRequired

  function Resume(segmentMap: Option<SegmentMap>, transferFormatVersion: U32, downloadedBytes: U64): ResumeOracle {
    match segmentMap
    case Some(m) => if Consistent(m) then Multi(m) else RestartRequired
    case None =>
      if transferFormatVersion >= 1 then RestartRequired
      else if downloadedBytes > 0 then LegacySingle
      else FreshSingle
  }

  /** The last segment ends at the largest offset, where no file of at most the largest size ends. */
  predicate EndsAtMax(m: SegmentMap) { m.segments != [] && m.segments[|m.segments| - 1].end == U64_MAX }

  /** Apart from maps that end at the largest offset, a stored map is resumed in segments exactly when
      its segments tile the file; one that does not is never overwritten, and neither is a version 1 job
      whose map is missing. */
  lemma ResumesSegmentsIffTiles(segmentMap: Option<SegmentMap>, version: U32, bytes: U64)
    ensures var r := Resume(segmentMap, version, bytes);
            && (r.Multi? ==> segmentMap == Some(r.segmentMap))
            && (r.Multi? && !EndsAtMax(r.segmentMap) <==> segmentMap.Some? && Tiles(segmentMap.value))
            && (segmentMap.Some? && !Tiles(segmentMap.value) && !EndsAtMax(segmentMap.value) ==> r == RestartRequired)
            && (segmentMap.None? ==> (r == RestartRequired <==> version >= 1))
            && (r == LegacySingle <==> segmentMap.None? && version == 0 && bytes > 0)
            && (r == FreshSingle <==> segmentMap.None? && version == 0 && bytes == 0)
  {
    if segmentMap.Some? {
      ConsistentIffTiles(segmentMap.value);
    }
  }
}
