/** Parallel reassembly: segment workers fetch, write and credit their ranges in
    any interleaving, are aborted, paused, clamped back and restarted, and what
    lies in the file is always what the map says it is. */
module Reassembly {
  import opened FileBytes
  import opened RangeStatuses
  import opened Segments
  import StreamBody
  import opened Wrappers

  /** `offset` is where the sink writes next, `src` the remote position the body
      has reached, and `last` the inclusive end of the accepted answer. */
  datatype Worker =
    | Idle
    | Fetching(from: nat)
    | Streaming(offset: nat, src: nat, last: nat)
    | Writing(offset: nat, src: nat, last: nat, data: seq<Byte>)  // handed to the blocking pool
    | Landed(offset: nat, src: nat, last: nat)                    // written, not yet credited in the map
    | Stopped

  /** A blocking write whose worker was aborted. It may still land. */
  datatype Orphan = Orphan(segment: nat, offset: nat, data: seq<Byte>)

  /** `high[i]` is the first offset of segment `i` that no write has reached yet. */
  datatype State = State(
    segmentMap: SegmentMap,
    file: seq<Byte>,
    workers: seq<Worker>,
    orphans: seq<Orphan>,
    high: seq<nat>)

  datatype StreamResult = Exhausted | Reconnect | Broken

  datatype Step =
    | Begin(w: nat)
    | Respond(w: nat, response: Response, again: bool)
    | Chunk(w: nat, data: seq<Byte>)
    | Land(w: nat)
    | LandPart(w: nat, count: nat)
    | Credit(w: nat)
    | EndStream(w: nat, result: StreamResult)
    | Abort(w: nat)
    | LandOrphan(k: nat, count: nat)
    | ClampToSynced(synced: seq<U64>)
    | Preallocate
    | Restart

  /** What stays fixed: the remote file, the size its validators recorded, and the bytes the local
      file began with. It may begin empty or shorter than the remote file. */
  datatype Job = Job(remote: seq<Byte>, expectedSize: Option<nat>, before: seq<Byte>)

  /** A body delivers the remote bytes from the start its server named; what it
      sends past the end it named is arbitrary. */
  ghost predicate Genuine(remote: seq<Byte>, src: nat, last: nat, data: seq<Byte>) {
    forall i :: 0 <= i < |data| && src + i <= last ==> src + i < |remote| && data[i] == remote[src + i]
  }

  predicate IsWorker(s: State, w: nat) { w < |s.workers| == |s.segmentMap.segments| == |s.high| }

  function Seg(s: State, w: nat): Segment
    requires IsWorker(s, w)
  { s.segmentMap.segments[w] }

  ghost predicate Enabled(job: Job, s: State, step: Step) {
    match step
    case Begin(w) => IsWorker(s, w) && s.workers[w].Idle?
    case Respond(w, _, _) => IsWorker(s, w) && s.workers[w].Fetching?
    case Chunk(w, data) =>
      && IsWorker(s, w) && s.workers[w].Streaming? && data != []
      && Genuine(job.remote, s.workers[w].src, s.workers[w].last, data)
    case Land(w) => IsWorker(s, w) && s.workers[w].Writing?
    case LandPart(w, count) => IsWorker(s, w) && s.workers[w].Writing? && count <= |s.workers[w].data|
    case Credit(w) => IsWorker(s, w) && s.workers[w].Landed?
    case EndStream(w, _) => IsWorker(s, w) && s.workers[w].Streaming?
    case Abort(w) => IsWorker(s, w)
    case LandOrphan(k, count) =>
      k < |s.orphans| && IsWorker(s, s.orphans[k].segment) && count <= |s.orphans[k].data|
    case ClampToSynced(synced) => |synced| == |s.segmentMap.segments|
    case Preallocate => forall w :: 0 <= w < |s.workers| ==> s.workers[w].Idle? || s.workers[w].Stopped?
    case Restart =>
      && |s.workers| == |s.segmentMap.segments|
      && (forall w :: 0 <= w < |s.workers| ==> s.workers[w].Stopped?)
      && Resume(Some(s.segmentMap), 1, 0).Multi?
  }

  function SetWorker(s: State, w: nat, x: Worker): State
    requires IsWorker(s, w)
  { s.(workers := s.workers[w := x]) }

  function SetSegment(s: State, w: nat, x: Segment): State
    requires IsWorker(s, w)
  { s.(segmentMap := s.segmentMap.(segments := s.segmentMap.segments[w := x])) }

  function Mark(s: State, w: nat, state: SegmentState): State
    requires IsWorker(s, w)
  { SetSegment(s, w, Seg(s, w).(state := state)) }

  /** The progress callback: `written` from the sink's position, never past the length. */
  function Credited(seg: Segment, writtenAt: U64): Segment {
    var done := SatSub(writtenAt, seg.start);
    var written := if done <= seg.Length() then done else seg.Length();
    seg.(written := written, state := if written >= seg.Length() then Completed else seg.state)
  }

  function ClampSegment(seg: Segment, durable: U64): Segment {
    if seg.written <= durable then seg
    else seg.(written := durable,
              state := if durable < seg.Length() && seg.state == Completed then Active else seg.state)
  }

  function LandBytes(s: State, w: nat, offset: nat, data: seq<Byte>): State
    requires IsWorker(s, w)
  {
    var reached := offset + |data|;
    s.(file := PutBytes(s.file, offset, data), high := s.high[w := if reached > s.high[w] then reached else s.high[w]])
  }

  function ToU64(x: nat): U64 { if x <= U64_MAX then x else U64_MAX }

  function Apply(job: Job, s: State, step: Step): State
    requires Enabled(job, s, step)
  {
    match step
    case Begin(w) =>
      var seg := Seg(s, w);
      if seg.written >= SatAdd(SatSub(seg.end, seg.start), 1) then SetWorker(Mark(s, w, Completed), w, Stopped)
      else SetWorker(if seg.state == Completed then s else Mark(s, w, Active), w, Fetching(seg.RemainingStart()))
    case Respond(w, r, again) =>
      var from := s.workers[w].from;
      (match ClassifySlice(r, from, Seg(s, w).end, job.expectedSize)
       case None => SetWorker(s, w, Streaming(from, r.contentRange.value.start, r.contentRange.value.end))
       case Some(e) =>
         if e.Retryable() && again then SetWorker(s, w, Idle) else SetWorker(Mark(s, w, Failed), w, Stopped))
    case Chunk(w, data) =>
      var x := s.workers[w];
      if x.offset > x.last then SetWorker(Mark(s, w, Failed), w, Stopped)  // write_at past the end is an error
      else SetWorker(s, w, Writing(x.offset, x.src, x.last, Capped(data, x.offset, x.last)))
    case Land(w) =>
      var x := s.workers[w];
      SetWorker(LandBytes(s, w, x.offset, x.data), w, Landed(x.offset + |x.data|, x.src + |x.data|, x.last))
    case LandPart(w, count) =>  // a disk error part of the way through
      var x := s.workers[w];
      SetWorker(Mark(LandBytes(s, w, x.offset, x.data[..count]), w, Failed), w, Stopped)
    case Credit(w) =>
      var x := s.workers[w];
      SetWorker(SetSegment(s, w, Credited(Seg(s, w), ToU64(x.offset))), w, Streaming(x.offset, x.src, x.last))
    case EndStream(w, result) =>
      if result.Broken? then SetWorker(Mark(s, w, Failed), w, Stopped)
      else if result.Exhausted? && Seg(s, w).written >= Seg(s, w).Length()
      then SetWorker(Mark(s, w, Completed), w, Stopped)
      else SetWorker(s, w, Idle)
    case Abort(w) =>
      var x := s.workers[w];
      var t := SetWorker(s, w, Stopped);
      if x.Writing? then t.(orphans := s.orphans + [Orphan(w, x.offset, x.data)]) else t
    case LandOrphan(k, count) =>
      var o := s.orphans[k];
      LandBytes(s, o.segment, o.offset, o.data[..count]).(orphans := s.orphans[..k] + s.orphans[k + 1..])
    case ClampToSynced(synced) =>
      var m := s.segmentMap;
      s.(segmentMap := m.(segments :=
      seq(|m.segments|, i requires 0 <= i < |m.segments| => ClampSegment(m.segments[i], synced[i]))))
    case Preallocate =>  // before any worker runs, and only when there is room
      s.(file := Front(s.file, s.segmentMap.totalBytes), segmentMap := s.segmentMap.(preallocated := true))
    case Restart =>
      var m := s.segmentMap.segments;
      s.(workers := seq(|s.workers|, i requires 0 <= i < |s.workers| =>
        if m[i].written >= m[i].Length() then Stopped else Idle))
  }

  ghost function Exec(job: Job, s: State, steps: seq<Step>): Option<State>
    decreases |steps|
  {
    if steps == [] then Some(s)
    else if !Enabled(job, s, steps[0]) then None
    else Exec(job, Apply(job, s, steps[0]), steps[1..])
  }

  /** A fresh transfer: the partition, the file as it is, one worker a segment. */
  function Start(job: Job, total: U64, n: U32): State {
    var m := Partition(total, n);
    State(m, job.before,
          seq(|m.segments|, i => Idle), [],
          seq(|m.segments|, i requires 0 <= i < |m.segments| => m.segments[i].start))
  }

  ghost predicate JobFits(job: Job, total: U64) { |job.before| <= |job.remote| == total }

  // ----- The sink a worker writes to

  /** The positioned sink of `StreamBody`, as worker `w` stands now. */
  function SinkOf(s: State, w: nat): StreamBody.Sink
    requires IsWorker(s, w) && s.workers[w].Streaming?
  { StreamBody.Sink(StreamBody.Positioned(s.workers[w].last), s.file, [], s.workers[w].offset) }

  /** Taking a chunk, landing it and crediting it is one write of the positioned sink: the same bytes
      in the file, the worker where the sink stands, its segment credited up to there. Past the end of
      the answer the sink refuses and the worker stops. */
  lemma ChunkIsOneWrite(job: Job, s: State, w: nat, data: seq<Byte>)
    requires Enabled(job, s, Chunk(w, data))
    ensures var (sink, result) := StreamBody.WriteChunk(SinkOf(s, w), data, false);
            if s.workers[w].offset > s.workers[w].last then
              && result == StreamBody.DiskFault && sink == SinkOf(s, w)
              && Exec(job, s, [Chunk(w, data)]) == Some(SetWorker(Mark(s, w, Failed), w, Stopped))
            else
              && result.Wrote?
              && Exec(job, s, [Chunk(w, data), Land(w), Credit(w)]).Some?
              && var t := Exec(job, s, [Chunk(w, data), Land(w), Credit(w)]).value;
                 && IsWorker(t, w) && t.workers[w].Streaming? && SinkOf(t, w) == sink
                 && t.workers[w].src == s.workers[w].src + result.n
                 && t.segmentMap.segments == s.segmentMap.segments[w := Credited(Seg(s, w), ToU64(sink.offset))]
  {
    var t := Apply(job, s, Chunk(w, data));
    if s.workers[w].offset > s.workers[w].last {
      OneStep(job, s, Chunk(w, data));
    } else {
      var u := Apply(job, t, Land(w));
      ThreeSteps(job, s, Chunk(w, data), t, Land(w), u, Credit(w));
      assert u.workers[w].offset == StreamBody.WriteChunk(SinkOf(s, w), data, false).0.offset;
    }
  }

  lemma OneStep(job: Job, s: State, a: Step)
    requires Enabled(job, s, a)
    ensures Exec(job, s, [a]) == Some(Apply(job, s, a))
  {
    assert [a][1..] == [];
    assert Exec(job, Apply(job, s, a), []) == Some(Apply(job, s, a));
  }

  lemma ThreeSteps(job: Job, s: State, a: Step, t: State, b: Step, u: State, c: Step)
    requires Enabled(job, s, a) && t == Apply(job, s, a) && Enabled(job, t, b) && u == Apply(job, t, b)
    requires Enabled(job, u, c)
    ensures Exec(job, s, [a, b, c]) == Some(Apply(job, u, c))
  {
    OneStep(job, u, c);
    assert [a, b, c][1..] == [b, c] && [b, c][1..] == [c];
    assert Exec(job, t, [b, c]) == Exec(job, u, [c]);
  }

  // ----- The invariant

  ghost predicate RangeOk(job: Job, s: State, i: nat)
    requires IsWorker(s, i)
  {
    var seg := Seg(s, i);
    && seg.start + seg.written <= s.high[i] <= seg.end + 1 <= |job.remote|
    && (seg.start < s.high[i] ==> s.high[i] <= |s.file|)
    && (forall p :: seg.start <= p < s.high[i] ==> At(s.file, p) == job.remote[p])
    && (forall p :: s.high[i] <= p <= seg.end ==> At(s.file, p) == At(job.before, p))
  }

  /** Data bound for `[offset, ..)` inside a segment: the remote bytes, starting no later than `high`. */
  ghost predicate DataOk(job: Job, seg: Segment, high: nat, offset: nat, data: seq<Byte>) {
    && seg.start <= offset <= high && offset + |data| <= seg.end + 1 <= |job.remote|
    && (forall i :: 0 <= i < |data| ==> data[i] == job.remote[offset + i])
  }

  /** A worker asks for and writes nothing that its segment counts as written already. */
  ghost predicate WorkerOk(job: Job, seg: Segment, high: nat, x: Worker) {
    match x
    case Idle => true
    case Stopped => true
    case Fetching(from) => seg.start + seg.written <= from <= high && from <= seg.end
    case Streaming(offset, src, last) =>
      seg.start + seg.written <= offset <= high && offset <= last + 1 && last <= seg.end && src == offset
    case Landed(offset, src, last) =>
      seg.start + seg.written <= offset <= high && offset <= last + 1 && last <= seg.end && src == offset
    case Writing(offset, src, last, data) =>
      && DataOk(job, seg, high, offset, data) && seg.start + seg.written <= offset
      && offset + |data| <= last + 1 && last <= seg.end && src == offset
  }

  ghost predicate OrphanOk(job: Job, s: State, o: Orphan) {
    IsWorker(s, o.segment) && DataOk(job, Seg(s, o.segment), s.high[o.segment], o.offset, o.data)
  }

  ghost predicate Inv(job: Job, s: State) {
    && Tiles(s.segmentMap)
    && |job.before| <= |s.file| <= |job.remote| == s.segmentMap.totalBytes
    && |s.workers| == |s.segmentMap.segments| == |s.high|
    && (forall i :: 0 <= i < |s.workers| ==> RangeOk(job, s, i))
    && (forall i :: 0 <= i < |s.workers| ==> WorkerOk(job, Seg(s, i), s.high[i], s.workers[i]))
    && (forall k :: 0 <= k < |s.orphans| ==> OrphanOk(job, s, s.orphans[k]))
  }

  // ----- Every step keeps it

  ghost predicate SameShape(a: Segment, b: Segment) { a.index == b.index && a.start == b.start && a.end == b.end }

  lemma TilesSameShape(a: SegmentMap, b: SegmentMap)
    requires Tiles(a) && a.totalBytes == b.totalBytes && a.segmentCount == b.segmentCount
    requires |a.segments| == |b.segments|
    requires forall i :: 0 <= i < |a.segments| ==>
                           SameShape(a.segments[i], b.segments[i]) && b.segments[i].written <= LengthOf(b.segments[i])
    ensures Tiles(b)
  {
    forall i | 0 <= i < |b.segments| ensures SegmentTiles(b, i) {
      assert SegmentTiles(a, i);
    }
  }

  lemma {:induction false} SegmentsDisjoint(m: SegmentMap, i: nat, j: nat)
    requires Tiles(m) && i < j < |m.segments|
    ensures m.segments[i].end < m.segments[j].start
  {
    assert SegmentTiles(m, j);
    if i < j - 1 {
      SegmentsDisjoint(m, i, j - 1);
      assert SegmentTiles(m, j - 1);
    }
  }

  ghost predicate SlotOk(job: Job, s: State, t: State, i: nat)
    requires IsWorker(s, i) && IsWorker(t, i)
  {
    && SameShape(Seg(s, i), Seg(t, i)) && Seg(t, i).written <= LengthOf(Seg(t, i))
    && RangeOk(job, t, i) && WorkerOk(job, Seg(t, i), t.high[i], t.workers[i])
  }

  predicate OneWorker(step: Step) {
    step.Begin? || step.Respond? || step.Chunk? || step.Credit? || step.EndStream? || step.Abort?
  }

  /** Steps of the whole transfer, between the runs of its workers. */
  predicate Rearranges(step: Step) { step.ClampToSynced? || step.Preallocate? || step.Restart? }

  lemma RangeKept(job: Job, s: State, t: State, i: nat)
    requires Inv(job, s) && IsWorker(s, i) && IsWorker(t, i) && t.file == s.file && t.high[i] == s.high[i]
    requires SameShape(Seg(s, i), Seg(t, i)) && Seg(t, i).start + Seg(t, i).written <= s.high[i]
    ensures RangeOk(job, t, i) && Seg(t, i).written <= LengthOf(Seg(t, i))
  {
    assert RangeOk(job, s, i);
  }

  lemma SegmentBounds(job: Job, s: State, i: nat)
    requires Inv(job, s) && IsWorker(s, i)
    ensures Seg(s, i).start <= Seg(s, i).end < |job.remote| <= U64_MAX && Seg(s, i).Length() == LengthOf(Seg(s, i))
    ensures Seg(s, i).start + Seg(s, i).written <= s.high[i] <= Seg(s, i).end + 1
  {
    assert RangeOk(job, s, i) && SegmentTiles(s.segmentMap, i);
  }

  /** The worker that moves keeps its own position in order. */
  lemma OwnWorker(job: Job, s: State, step: Step)
    requires Inv(job, s) && Enabled(job, s, step) && OneWorker(step)
    ensures var t := Apply(job, s, step); var i := step.w;
            && IsWorker(t, i) && SameShape(Seg(s, i), Seg(t, i)) && t.file == s.file && t.high == s.high
            && WorkerOk(job, Seg(t, i), t.high[i], t.workers[i])
            && Seg(t, i).start + Seg(t, i).written <= s.high[i]
  {
    var i := step.w;
    SegmentBounds(job, s, i);
    var x := s.workers[i];
    assert WorkerOk(job, Seg(s, i), s.high[i], x);
    if step.Chunk? && x.offset <= x.last {
      ChunkIsGenuine(job, Seg(s, i), s.high[i], x, step.data);
    }
  }

  /** What the sink keeps of a chunk is remote data for its own range. */
  lemma ChunkIsGenuine(job: Job, seg: Segment, high: nat, x: Worker, data: seq<Byte>)
    requires x.Streaming? && WorkerOk(job, seg, high, x) && x.offset <= x.last && seg.end + 1 <= |job.remote|
    requires Genuine(job.remote, x.src, x.last, data)
    ensures DataOk(job, seg, high, x.offset, Capped(data, x.offset, x.last))
    ensures x.offset + |Capped(data, x.offset, x.last)| <= x.last + 1
  {
    var kept := Capped(data, x.offset, x.last);
    assert forall k :: 0 <= k < |kept| ==> kept[k] == data[k] && x.src + k <= x.last;
  }

  lemma OwnSlot(job: Job, s: State, step: Step)
    requires Inv(job, s) && Enabled(job, s, step) && OneWorker(step)
    ensures IsWorker(Apply(job, s, step), step.w) && SlotOk(job, s, Apply(job, s, step), step.w)
  {
    OwnWorker(job, s, step);
    RangeKept(job, s, Apply(job, s, step), step.w);
  }

  lemma OtherSlot(job: Job, s: State, step: Step, i: nat)
    requires Inv(job, s) && Enabled(job, s, step) && IsWorker(s, i)
    requires OneWorker(step) ==> i != step.w
    requires OneWorker(step) || Rearranges(step)
    ensures IsWorker(Apply(job, s, step), i) && SlotOk(job, s, Apply(job, s, step), i)
  {
    if OneWorker(step) {
      UntouchedSlot(job, s, Apply(job, s, step), i);
    } else {
      RestartedSlot(job, s, step, i);
    }
  }

  lemma UntouchedSlot(job: Job, s: State, t: State, i: nat)
    requires Inv(job, s) && IsWorker(s, i) && IsWorker(t, i) && t.file == s.file
    requires Seg(t, i) == Seg(s, i) && t.workers[i] == s.workers[i] && t.high[i] == s.high[i]
    ensures SlotOk(job, s, t, i)
  {
    assert RangeOk(job, s, i) && WorkerOk(job, Seg(s, i), s.high[i], s.workers[i]);
    assert SegmentTiles(s.segmentMap, i);
  }

  lemma RestartedSlot(job: Job, s: State, step: Step, i: nat)
    requires Inv(job, s) && Enabled(job, s, step) && IsWorker(s, i)
    requires Rearranges(step)
    ensures IsWorker(Apply(job, s, step), i) && SlotOk(job, s, Apply(job, s, step), i)
  {
    assert RangeOk(job, s, i) && WorkerOk(job, Seg(s, i), s.high[i], s.workers[i]);
    assert SegmentTiles(s.segmentMap, i);
  }

  lemma OrphanKept(job: Job, s: State, t: State, o: Orphan)
    requires OrphanOk(job, s, o) && IsWorker(t, o.segment)
    requires SameShape(Seg(s, o.segment), Seg(t, o.segment)) && s.high[o.segment] <= t.high[o.segment]
    ensures OrphanOk(job, t, o)
  {
  }

  lemma NewOrphan(job: Job, s: State, w: nat)
    requires Inv(job, s) && IsWorker(s, w) && s.workers[w].Writing?
    ensures OrphanOk(job, s, Orphan(w, s.workers[w].offset, s.workers[w].data))
  {
    assert WorkerOk(job, Seg(s, w), s.high[w], s.workers[w]);
  }

  /** An orphan there after the step was one before, or is the write of the worker just aborted. */
  lemma OrphanWasOk(job: Job, s: State, step: Step, k: nat)
    requires Inv(job, s) && Enabled(job, s, step) && (OneWorker(step) || Rearranges(step))
    requires k < |Apply(job, s, step).orphans|
    ensures OrphanOk(job, s, Apply(job, s, step).orphans[k])
  {
    if k < |s.orphans| {
      assert Apply(job, s, step).orphans[k] == s.orphans[k];
    } else {
      NewOrphan(job, s, step.w);
    }
  }

  lemma OrphansKept(job: Job, s: State, step: Step)
    requires Inv(job, s) && Enabled(job, s, step)
    requires OneWorker(step) || Rearranges(step)
    requires var t := Apply(job, s, step);
             forall i :: 0 <= i < |s.workers| ==> IsWorker(t, i) && SlotOk(job, s, t, i)
    ensures var t := Apply(job, s, step);
            forall k :: 0 <= k < |t.orphans| ==> OrphanOk(job, t, t.orphans[k])
  {
    var t := Apply(job, s, step);
    forall k | 0 <= k < |t.orphans| ensures OrphanOk(job, t, t.orphans[k]) {
      var o := t.orphans[k];
      OrphanWasOk(job, s, step, k);
      assert SlotOk(job, s, t, o.segment);
      OrphanKept(job, s, t, o);
    }
  }

  lemma SlotsMakeInv(job: Job, s: State, t: State)
    requires Inv(job, s) && |s.file| <= |t.file| <= |job.remote|
    requires t.segmentMap.totalBytes == s.segmentMap.totalBytes
    requires t.segmentMap.segmentCount == s.segmentMap.segmentCount
    requires |t.workers| == |t.segmentMap.segments| == |t.high| == |s.workers|
    requires forall i :: 0 <= i < |s.workers| ==> SlotOk(job, s, t, i)
    requires forall k :: 0 <= k < |t.orphans| ==> OrphanOk(job, t, t.orphans[k])
    ensures Inv(job, t)
  {
    forall i | 0 <= i < |t.workers|
      ensures SameShape(s.segmentMap.segments[i], t.segmentMap.segments[i])
      ensures t.segmentMap.segments[i].written <= LengthOf(t.segmentMap.segments[i])
      ensures RangeOk(job, t, i) && WorkerOk(job, Seg(t, i), t.high[i], t.workers[i])
    {
      assert SlotOk(job, s, t, i);
    }
    TilesSameShape(s.segmentMap, t.segmentMap);
  }

  /** Steps that leave the file alone. */
  lemma MapStepKeepsInv(job: Job, s: State, step: Step)
    requires Inv(job, s) && Enabled(job, s, step)
    requires OneWorker(step) || Rearranges(step)
    ensures Inv(job, Apply(job, s, step))
  {
    forall i | 0 <= i < |s.workers| ensures IsWorker(Apply(job, s, step), i) && SlotOk(job, s, Apply(job, s, step), i) {
      if OneWorker(step) && i == step.w {
        OwnSlot(job, s, step);
      } else {
        OtherSlot(job, s, step, i);
      }
    }
    OrphansKept(job, s, step);
    SlotsMakeInv(job, s, Apply(job, s, step));
  }

  /** Landing genuine bytes that start no later than `high` extends the known
      part of their own segment and touches no other. */
  lemma LandBytesKeepsRanges(job: Job, s: State, w: nat, offset: nat, data: seq<Byte>)
    requires Inv(job, s) && IsWorker(s, w) && DataOk(job, Seg(s, w), s.high[w], offset, data)
    ensures var t := LandBytes(s, w, offset, data);
            && |s.file| <= |t.file| <= |job.remote|
            && OnlyInside(s.file, t.file, Seg(s, w))
            && (forall i :: 0 <= i < |s.workers| ==> RangeOk(job, t, i))
  {
    var t := LandBytes(s, w, offset, data);
    PutAt(s.file, offset, data);
    forall i | 0 <= i < |s.workers| ensures RangeOk(job, t, i) {
      if i != w {
        OtherRangeUntouched(job, s, t, w, i);
      } else {
        assert RangeOk(job, s, i);
      }
    }
  }

  /** A write changes bytes of its own segment only; where the file grows elsewhere it gains zeros. */
  ghost predicate OnlyInside(before: seq<Byte>, after: seq<Byte>, seg: Segment) {
    forall p: nat :: !(seg.start <= p <= seg.end) ==> At(after, p) == At(before, p)
  }

  lemma OtherRangeUntouched(job: Job, s: State, t: State, w: nat, i: nat)
    requires Inv(job, s) && IsWorker(s, w) && IsWorker(s, i) && IsWorker(t, i) && i != w
    requires |s.file| <= |t.file| && t.segmentMap == s.segmentMap && t.high[i] == s.high[i]
    requires OnlyInside(s.file, t.file, Seg(s, w))
    ensures RangeOk(job, t, i)
  {
    assert RangeOk(job, s, i);
    SegmentBounds(job, s, i);
    if i < w {
      SegmentsDisjoint(s.segmentMap, i, w);
    } else {
      SegmentsDisjoint(s.segmentMap, w, i);
    }
  }

  predicate Lands(step: Step) { step.Land? || step.LandPart? || step.LandOrphan? }

  /** What lands is genuine, whoever wrote it. */
  lemma LandingIsGenuine(job: Job, s: State, step: Step)
    requires Inv(job, s) && Enabled(job, s, step) && Lands(step)
    ensures var (w, offset, data) := Landing(s, step);
            IsWorker(s, w) && DataOk(job, Seg(s, w), s.high[w], offset, data)
  {
    if step.LandOrphan? {
      assert OrphanOk(job, s, s.orphans[step.k]);
    } else {
      assert WorkerOk(job, Seg(s, step.w), s.high[step.w], s.workers[step.w]);
    }
  }

  lemma LandingSlots(job: Job, s: State, step: Step)
    requires Inv(job, s) && Enabled(job, s, step) && Lands(step)
    ensures var t := Apply(job, s, step);
            && |s.file| <= |t.file| <= |job.remote|
            && forall i :: 0 <= i < |s.workers| ==> IsWorker(t, i) && SlotOk(job, s, t, i) && s.high[i] <= t.high[i]
  {
    var t := Apply(job, s, step);
    LandingIsGenuine(job, s, step);
    var (w, offset, data) := Landing(s, step);
    LandBytesKeepsRanges(job, s, w, offset, data);
    forall i | 0 <= i < |s.workers| ensures IsWorker(t, i) && SlotOk(job, s, t, i) && s.high[i] <= t.high[i] {
      LandedSlot(job, s, step, i);
    }
  }

  lemma LandingOrphans(job: Job, s: State, step: Step)
    requires Inv(job, s) && Enabled(job, s, step) && Lands(step)
    ensures var t := Apply(job, s, step);
            forall k :: 0 <= k < |t.orphans| ==> OrphanOk(job, t, t.orphans[k])
  {
    var t := Apply(job, s, step);
    LandingSlots(job, s, step);
    forall k | 0 <= k < |t.orphans| ensures OrphanOk(job, t, t.orphans[k]) {
      var j := if step.LandOrphan? && k >= step.k then k + 1 else k;
      var o := s.orphans[j];
      assert t.orphans[k] == o && OrphanOk(job, s, o);
      assert SlotOk(job, s, t, o.segment);
      OrphanKept(job, s, t, o);
    }
  }

  lemma LandStepKeepsInv(job: Job, s: State, step: Step)
    requires Inv(job, s) && Enabled(job, s, step) && Lands(step)
    ensures Inv(job, Apply(job, s, step))
  {
    LandingSlots(job, s, step);
    LandingOrphans(job, s, step);
    SlotsMakeInv(job, s, Apply(job, s, step));
  }

  lemma LandedSlot(job: Job, s: State, step: Step, i: nat)
    requires Inv(job, s) && Enabled(job, s, step) && IsWorker(s, i)
    requires Lands(step)
    requires var (w, offset, data) := Landing(s, step); RangeOk(job, LandBytes(s, w, offset, data), i)
    ensures IsWorker(Apply(job, s, step), i) && SlotOk(job, s, Apply(job, s, step), i)
    ensures s.high[i] <= Apply(job, s, step).high[i]
  {
    assert RangeOk(job, s, i) && WorkerOk(job, Seg(s, i), s.high[i], s.workers[i]);
    assert SegmentTiles(s.segmentMap, i);
    if step.LandOrphan? {
      LandedOrphanSlot(job, s, step, i);
    } else {
      LandedWorkerSlot(job, s, step, i);
    }
  }

  lemma LandedOrphanSlot(job: Job, s: State, step: Step, i: nat)
    requires IsWorker(s, i) && Enabled(job, s, step) && step.LandOrphan?
    requires WorkerOk(job, Seg(s, i), s.high[i], s.workers[i]) && Seg(s, i).written <= LengthOf(Seg(s, i))
    requires var (w, offset, data) := Landing(s, step); RangeOk(job, LandBytes(s, w, offset, data), i)
    ensures IsWorker(Apply(job, s, step), i) && SlotOk(job, s, Apply(job, s, step), i)
    ensures s.high[i] <= Apply(job, s, step).high[i]
  {
  }

  lemma LandedWorkerSlot(job: Job, s: State, step: Step, i: nat)
    requires IsWorker(s, i) && Enabled(job, s, step) && (step.Land? || step.LandPart?)
    requires WorkerOk(job, Seg(s, i), s.high[i], s.workers[i]) && Seg(s, i).written <= LengthOf(Seg(s, i))
    requires var (w, offset, data) := Landing(s, step); RangeOk(job, LandBytes(s, w, offset, data), i)
    ensures IsWorker(Apply(job, s, step), i) && SlotOk(job, s, Apply(job, s, step), i)
    ensures s.high[i] <= Apply(job, s, step).high[i]
  {
  }

  /** The bytes a landing step writes: segment, offset, data. */
  function Landing(s: State, step: Step): (r: (nat, nat, seq<Byte>))
    requires Lands(step)
    requires step.Land? || step.LandPart? ==> IsWorker(s, step.w) && s.workers[step.w].Writing?
    requires step.LandPart? ==> step.count <= |s.workers[step.w].data|
    requires step.LandOrphan? ==> step.k < |s.orphans| && step.count <= |s.orphans[step.k].data|
  {
    match step
    case Land(w) => (w, s.workers[w].offset, s.workers[w].data)
    case LandPart(w, count) => (w, s.workers[w].offset, s.workers[w].data[..count])
    case LandOrphan(k, count) => (s.orphans[k].segment, s.orphans[k].offset, s.orphans[k].data[..count])
  }

  lemma StepKeepsInv(job: Job, s: State, step: Step)
    requires Inv(job, s) && Enabled(job, s, step)
    ensures Inv(job, Apply(job, s, step))
  {
    if Lands(step) {
      LandStepKeepsInv(job, s, step);
    } else {
      MapStepKeepsInv(job, s, step);
    }
  }

  lemma {:induction false} RunKeepsInv(job: Job, s: State, steps: seq<Step>)
    requires Inv(job, s) && Exec(job, s, steps).Some?
    ensures Inv(job, Exec(job, s, steps).value)
    decreases |steps|
  {
    if steps != [] {
      StepKeepsInv(job, s, steps[0]);
      RunKeepsInv(job, Apply(job, s, steps[0]), steps[1..]);
    }
  }

  lemma StartInv(job: Job, total: U64, n: U32)
    requires JobFits(job, total)
    ensures Inv(job, Start(job, total, n))
  {
    PartitionTiles(total, n);
    var s := Start(job, total, n);
    forall i | 0 <= i < |s.workers| ensures RangeOk(job, s, i) {
      assert SegmentTiles(s.segmentMap, i);
    }
  }

  ghost predicate Reachable(job: Job, total: U64, n: U32, s: State) {
    JobFits(job, total) && exists steps :: Exec(job, Start(job, total, n), steps) == Some(s)
  }

  lemma ReachableInv(job: Job, total: U64, n: U32, s: State)
    requires Reachable(job, total, n, s)
    ensures Inv(job, s)
  {
    var steps :| Exec(job, Start(job, total, n), steps) == Some(s);
    StartInv(job, total, n);
    RunKeepsInv(job, Start(job, total, n), steps);
  }

  // ----- Main results

  /** No write of a worker, landed late or cut short, changes a byte outside its own segment; what
      the file gains outside it is zeros. */
  lemma WorkersKeepApart(job: Job, total: U64, n: U32, s: State, step: Step)
    requires Reachable(job, total, n, s) && Enabled(job, s, step) && Lands(step)
    ensures var t := Apply(job, s, step); var seg := Seg(s, Landing(s, step).0);
            && |s.file| <= |t.file| <= |job.remote|
            && (forall p :: 0 <= p < |s.file| && !(seg.start <= p <= seg.end) ==> t.file[p] == s.file[p])
            && (forall p :: |s.file| <= p < |t.file| && !(seg.start <= p <= seg.end) ==> t.file[p] == 0)
  {
    ReachableInv(job, total, n, s);
    var w := Landing(s, step).0;
    LandsInside(job, s, step);
    var t := Apply(job, s, step);
    forall p | 0 <= p < |t.file| && !(Seg(s, w).start <= p <= Seg(s, w).end)
      ensures t.file[p] == At(s.file, p)
    {
      assert At(t.file, p) == At(s.file, p);
    }
  }

  lemma LandsInside(job: Job, s: State, step: Step)
    requires Inv(job, s) && Enabled(job, s, step) && Lands(step)
    ensures var t := Apply(job, s, step);
            && IsWorker(s, Landing(s, step).0)
            && OnlyInside(s.file, t.file, Seg(s, Landing(s, step).0)) && |s.file| <= |t.file| <= |job.remote|
  {
    LandingIsGenuine(job, s, step);
    var (w, offset, data) := Landing(s, step);
    LandBytesKeepsRanges(job, s, w, offset, data);
    assert Apply(job, s, step).file == LandBytes(s, w, offset, data).file;
  }

  /** Whatever happened, the stored map is consistent and resumes as a
      multi-segment transfer, and the bytes it counts are the remote bytes. */
  lemma ProgressIsNeverALie(job: Job, total: U64, n: U32, s: State)
    requires Reachable(job, total, n, s)
    ensures Consistent(s.segmentMap) && Resume(Some(s.segmentMap), 1, 0) == Multi(s.segmentMap)
    ensures |s.file| <= s.segmentMap.totalBytes == |job.remote|
    ensures 0 <= WrittenSum(s.segmentMap) <= |job.remote|
    ensures forall i :: 0 <= i < |s.segmentMap.segments| ==> CountedBytesAreRemote(job, s, s.segmentMap.segments[i])
  {
    ReachableInv(job, total, n, s);
    ConsistentIffTiles(s.segmentMap);
    WrittenSumReachesTotal(s.segmentMap);
    if s.segmentMap.segments != [] {
      assert SegmentTiles(s.segmentMap, |s.segmentMap.segments| - 1);
    }
    forall i | 0 <= i < |s.segmentMap.segments| ensures CountedBytesAreRemote(job, s, s.segmentMap.segments[i]) {
      assert RangeOk(job, s, i);
      assert forall p :: 0 <= p < |s.file| ==> At(s.file, p) == s.file[p];
    }
  }

  ghost predicate CountedBytesAreRemote(job: Job, s: State, seg: Segment) {
    forall p :: seg.start <= p < seg.start + seg.written ==> p < |s.file| <= |job.remote| && s.file[p] == job.remote[p]
  }

  lemma {:induction false} SegmentAt(m: SegmentMap, p: nat, k: nat) returns (i: nat)
    requires Tiles(m) && k < |m.segments| && p <= m.segments[k].end
    ensures i < |m.segments| && m.segments[i].start <= p <= m.segments[i].end
  {
    assert SegmentTiles(m, k);
    if p >= m.segments[k].start {
      i := k;
    } else {
      i := SegmentAt(m, p, k - 1);
    }
  }

  /** Offset `p` has been reached by no write yet. */
  ghost predicate Unwritten(s: State, p: nat) {
    exists i :: 0 <= i < |s.high| == |s.segmentMap.segments| && s.high[i] <= p <= s.segmentMap.segments[i].end
  }

  /** The file is the remote file exactly when it has its length and the offsets no write has
      reached happened to hold the remote bytes from the beginning, or zeros as in a hole. */
  lemma FileIsRemoteIff(job: Job, total: U64, n: U32, s: State)
    requires Reachable(job, total, n, s)
    ensures s.file == job.remote <==>
            && |s.file| == |job.remote|
            && forall p :: 0 <= p < |job.remote| && Unwritten(s, p) ==> At(job.before, p) == job.remote[p]
  {
    ReachableInv(job, total, n, s);
    if |s.file| == |job.remote| {
      forall p | 0 <= p < |job.remote|
        ensures s.file[p] == job.remote[p] || (Unwritten(s, p) && s.file[p] == At(job.before, p))
        ensures Unwritten(s, p) ==> s.file[p] == At(job.before, p)
      {
        ByteIsKnown(job, s, p);
      }
    }
  }

  /** Every byte of the file is either the remote byte or, where no write has been, the initial one. */
  lemma ByteIsKnown(job: Job, s: State, p: nat)
    requires Inv(job, s) && p < |job.remote|
    ensures At(s.file, p) == job.remote[p] || Unwritten(s, p)
    ensures Unwritten(s, p) ==> At(s.file, p) == At(job.before, p)
  {
    assert SegmentTiles(s.segmentMap, |s.segmentMap.segments| - 1);
    var i := SegmentAt(s.segmentMap, p, |s.segmentMap.segments| - 1);
    assert RangeOk(job, s, i);
    assert s.high[i] <= p ==> Unwritten(s, p);
    if k :| 0 <= k < |s.high| && s.high[k] <= p <= s.segmentMap.segments[k].end {
      assert RangeOk(job, s, k);
    }
  }

  /** Reassembly: once the map counts every byte, the file is the remote file. */
  lemma FullMapMeansWholeFile(job: Job, total: U64, n: U32, s: State)
    requires Reachable(job, total, n, s) && WrittenSum(s.segmentMap) == s.segmentMap.totalBytes
    ensures s.file == job.remote
  {
    ReachableInv(job, total, n, s);
    WrittenSumReachesTotal(s.segmentMap);
    forall i | 0 <= i < |s.high| ensures s.high[i] == s.segmentMap.segments[i].end + 1 <= |s.file| {
      assert SegmentTiles(s.segmentMap, i) && RangeOk(job, s, i);
      assert s.segmentMap.segments[i].written == LengthOf(s.segmentMap.segments[i]);
    }
    if s.segmentMap.segments != [] {
      assert SegmentTiles(s.segmentMap, |s.segmentMap.segments| - 1);
    }
    assert |s.file| == |job.remote|;
    FileIsRemoteIff(job, total, n, s);
  }

  /** The converse is false on its own. "All bytes counted" and "all bytes right" agree exactly when
      everything is counted, or the file is too short, or some offset no write has reached did not
      hold the remote byte from the beginning. */
  lemma FullMapIffWholeFile(job: Job, total: U64, n: U32, s: State)
    requires Reachable(job, total, n, s)
    ensures var full := WrittenSum(s.segmentMap) == s.segmentMap.totalBytes;
            (full <==> s.file == job.remote) <==>
            (full || |s.file| < |job.remote| ||
             exists p :: 0 <= p < |job.remote| && Unwritten(s, p) && At(job.before, p) != job.remote[p])
  {
    ReachableInv(job, total, n, s);
    FileIsRemoteIff(job, total, n, s);
    if WrittenSum(s.segmentMap) == s.segmentMap.totalBytes {
      FullMapMeansWholeFile(job, total, n, s);
    }
  }

  /** Every write has been credited: nothing is in flight and nothing was clamped back. */
  ghost predicate Settled(s: State) {
    |s.high| == |s.segmentMap.segments|
    && forall i :: 0 <= i < |s.high| ==> s.high[i] == s.segmentMap.segments[i].start + s.segmentMap.segments[i].written
  }

  /** Where every write is credited, the offsets no write has reached are those the map does not count. */
  lemma SettledUnwritten(job: Job, total: U64, n: U32, s: State, p: nat)
    requires Reachable(job, total, n, s) && Settled(s)
    ensures Unwritten(s, p) <==>
            exists i :: 0 <= i < |s.segmentMap.segments| &&
              s.segmentMap.segments[i].RemainingStart() <= p <= s.segmentMap.segments[i].end
  {
    ReachableInv(job, total, n, s);
    forall i | 0 <= i < |s.segmentMap.segments| ensures s.segmentMap.segments[i].RemainingStart() == s.high[i] {
      assert RangeOk(job, s, i);
    }
  }

  /** A remote file of zeros: preallocating makes the local file equal to it before a byte is counted. */
  lemma WholeFileBeforeAnyWrite(total: U64, n: U32)
    requires total > 0
    ensures var job := Job(seq(total, i => 0 as Byte), None, []);
            var s := Apply(job, Start(job, total, n), Preallocate);
            Reachable(job, total, n, s) && s.file == job.remote && WrittenSum(s.segmentMap) < s.segmentMap.totalBytes
  {
    PartitionTiles(total, n);
    var job := Job(seq(total, i => 0 as Byte), None, []);
    var start := Start(job, total, n);
    var s := Apply(job, start, Preallocate);
    assert Exec(job, s, []) == Some(s);
    assert [Preallocate][1..] == [];
    assert Exec(job, start, [Preallocate]) == Some(s);
  }
}
