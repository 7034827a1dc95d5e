/** That a transfer gets further: where a worker resumes, how much a round of it gains, when it is done, and
    that every stopped transfer can still be finished. */
module ReassemblyProgress {
  import opened FileBytes
  import opened RangeStatuses
  import opened Reassembly
  import opened Segments
  import opened Wrappers

  // ----- What a round gains

  /** Steps that take progress or the worker itself away: an abort, a clamp, a restart. */
  predicate Disturbs(step: Step, w: nat) { step == Abort(w) || step.ClampToSynced? || step.Restart? }

  /** The answer of the round in hand has arrived to its last byte, landed and credited. */
  predicate AllCredited(s: State, w: nat) {
    IsWorker(s, w) && s.workers[w].Streaming? && s.workers[w].offset > s.workers[w].last
  }

  /** The end of a round in which the accepted answer arrived to its last byte, landed and credited. */
  predicate EndsFullRound(s: State, step: Step, w: nat) {
    step.EndStream? && step.w == w && AllCredited(s, w)
  }

  function FullRounds(job: Job, s: State, steps: seq<Step>, w: nat): nat
    requires Exec(job, s, steps).Some?
    decreases |steps|
  {
    if steps == [] then 0
    else (if EndsFullRound(s, steps[0], w) then 1 else 0) + FullRounds(job, Apply(job, s, steps[0]), steps[1..], w)
  }

  /** The worker stands exactly where its segment's count ends, and the answer it reads goes past `floor`. */
  ghost predicate Holds(seg: Segment, x: Worker, floor: nat) {
    && seg.written >= floor
    && match x
       case Idle => true
       case Stopped => true
       case Fetching(from) => from == seg.start + seg.written
       case Streaming(offset, _, last) => offset == seg.start + seg.written && seg.start + floor <= last
       case Writing(offset, _, last, _) => offset == seg.start + seg.written && seg.start + floor <= last
       case Landed(offset, _, last) => offset >= seg.start + seg.written && seg.start + floor <= last
  }

  /** Steps of others. */
  predicate Elsewhere(step: Step, w: nat) {
    match step
    case Begin(v) => v != w
    case Respond(v, _, _) => v != w
    case Chunk(v, _) => v != w
    case Land(v) => v != w
    case LandPart(v, _) => v != w
    case Credit(v) => v != w
    case EndStream(v, _) => v != w
    case Abort(v) => v != w
    case LandOrphan(_, _) => true
    case Preallocate => true
    case ClampToSynced(_) => false
    case Restart => false
  }

  lemma ElsewhereUntouched(job: Job, s: State, step: Step, w: nat)
    requires Enabled(job, s, step) && IsWorker(s, w) && Elsewhere(step, w)
    ensures var t := Apply(job, s, step); IsWorker(t, w) && Seg(t, w) == Seg(s, w) && t.workers[w] == s.workers[w]
  {
  }

  lemma OwnStepHolds(job: Job, s: State, step: Step, w: nat, floor: nat)
    requires Inv(job, s) && Enabled(job, s, step) && IsWorker(s, w)
    requires !Elsewhere(step, w) && !Disturbs(step, w)
    requires Holds(Seg(s, w), s.workers[w], floor)
    ensures var t := Apply(job, s, step);
            && IsWorker(t, w)
            && Holds(Seg(t, w), t.workers[w], floor + if EndsFullRound(s, step, w) then 1 else 0)
  {
    SegmentBounds(job, s, w);
    assert WorkerOk(job, Seg(s, w), s.high[w], s.workers[w]);
  }

  lemma StepHolds(job: Job, s: State, step: Step, w: nat, floor: nat)
    requires Inv(job, s) && Enabled(job, s, step) && IsWorker(s, w) && !Disturbs(step, w)
    requires Holds(Seg(s, w), s.workers[w], floor)
    ensures var t := Apply(job, s, step);
            && IsWorker(t, w)
            && Holds(Seg(t, w), t.workers[w], floor + if EndsFullRound(s, step, w) then 1 else 0)
  {
    if Elsewhere(step, w) {
      ElsewhereUntouched(job, s, step, w);
    } else {
      OwnStepHolds(job, s, step, w, floor);
    }
  }

  predicate Undisturbed(steps: seq<Step>, w: nat) { forall i :: 0 <= i < |steps| ==> !Disturbs(steps[i], w) }

  lemma {:induction false} RunHolds(job: Job, s: State, steps: seq<Step>, w: nat, floor: nat)
    requires Inv(job, s) && Exec(job, s, steps).Some? && IsWorker(s, w) && Undisturbed(steps, w)
    requires Holds(Seg(s, w), s.workers[w], floor)
    ensures var t := Exec(job, s, steps).value;
            IsWorker(t, w) && Holds(Seg(t, w), t.workers[w], floor + FullRounds(job, s, steps, w))
    decreases |steps|
  {
    if steps != [] {
      StepKeepsInv(job, s, steps[0]);
      StepHolds(job, s, steps[0], w, floor);
      assert forall i :: 0 <= i < |steps[1..]| ==> steps[1..][i] == steps[i + 1];
      RunHolds(job, Apply(job, s, steps[0]), steps[1..], w, floor + if EndsFullRound(s, steps[0], w) then 1 else 0);
    }
  }

  /** Whatever other workers do meanwhile, and however the answers are cut into chunks: a worker never falls
      back, gains at least a byte with every full round, so goes through no more of them than bytes are
      missing, and an answer wholly credited leaves the count right behind its last byte. */
  lemma RoundsGain(job: Job, s: State, steps: seq<Step>, w: nat)
    requires Inv(job, s) && Exec(job, s, steps).Some? && IsWorker(s, w) && s.workers[w].Idle? && Undisturbed(steps, w)
    ensures var t := Exec(job, s, steps).value; var k := Seg(s, w).written;
            && IsWorker(t, w) && Inv(job, t)
            && Seg(t, w).written >= k + FullRounds(job, s, steps, w)
            && FullRounds(job, s, steps, w) <= Seg(s, w).Length() - k
            && (AllCredited(t, w) ==>
                  Seg(t, w).written == t.workers[w].last + 1 - Seg(t, w).start > k)
  {
    RunKeepsInv(job, s, steps);
    var t := Exec(job, s, steps).value;
    RunHolds(job, s, steps, w, Seg(s, w).written);
    KeepsShape(job, s, steps, w);
    SegmentBounds(job, s, w);
    SegmentBounds(job, t, w);
    assert WorkerOk(job, Seg(t, w), t.high[w], t.workers[w]);
  }

  lemma {:induction false} KeepsShape(job: Job, s: State, steps: seq<Step>, w: nat)
    requires Inv(job, s) && Exec(job, s, steps).Some? && IsWorker(s, w)
    ensures IsWorker(Exec(job, s, steps).value, w) && SameShape(Seg(s, w), Seg(Exec(job, s, steps).value, w))
    decreases |steps|
  {
    if steps != [] {
      StepKeepsShape(job, s, steps[0], w);
      StepKeepsInv(job, s, steps[0]);
      KeepsShape(job, Apply(job, s, steps[0]), steps[1..], w);
    }
  }

  lemma StepKeepsShape(job: Job, s: State, step: Step, w: nat)
    requires Inv(job, s) && Enabled(job, s, step) && IsWorker(s, w)
    ensures IsWorker(Apply(job, s, step), w) && SameShape(Seg(s, w), Seg(Apply(job, s, step), w))
  {
  }

  /** No step but a clamp ever lowers a count, from any state the transfer can be in. */
  lemma OnlyClampsGoBack(job: Job, s: State, step: Step, w: nat)
    requires Inv(job, s) && Enabled(job, s, step) && IsWorker(s, w) && !step.ClampToSynced?
    ensures IsWorker(Apply(job, s, step), w) && Seg(Apply(job, s, step), w).written >= Seg(s, w).written
  {
    SegmentBounds(job, s, w);
    assert WorkerOk(job, Seg(s, w), s.high[w], s.workers[w]);
  }

  /** A clamp leaves the smaller of the count and what is durable, and `Completed` only where that is all. */
  lemma ClampLeavesTheDurable(job: Job, s: State, synced: seq<U64>, w: nat)
    requires Inv(job, s) && Enabled(job, s, ClampToSynced(synced)) && IsWorker(s, w)
    ensures var seg := Seg(Apply(job, s, ClampToSynced(synced)), w);
            && (seg.written == Seg(s, w).written || seg.written == synced[w])
            && seg.written <= Seg(s, w).written && seg.written <= synced[w]
            && (Seg(s, w).state != Completed ==> seg.state == Seg(s, w).state)
            && (Seg(s, w).state == Completed && Seg(s, w).written == LengthOf(seg) ==>
                  (seg.state == Completed <==> seg.written == LengthOf(seg)))
  {
    SegmentBounds(job, s, w);
  }

  /** Where a worker resumes: right behind what its segment counts, and not at all when that is everything. */
  lemma BeginAsksForTheRest(job: Job, s: State, w: nat)
    requires Inv(job, s) && Enabled(job, s, Begin(w))
    ensures var t := Apply(job, s, Begin(w)); var seg := Seg(s, w);
            if seg.written < LengthOf(seg) then
              t.workers[w] == Fetching(seg.start + seg.written) && Seg(t, w).state in {Active, seg.state}
              && (seg.state != Completed ==> Seg(t, w).state == Active)
            else t.workers[w] == Stopped && Seg(t, w).state == Completed
  {
    SegmentBounds(job, s, w);
  }

  /** An answer that is not a front part of the range asked for changes neither the file nor a count. Only one
      that proves nothing about the remote bytes may be asked for again; any other fails the segment. */
  lemma RejectedAnswer(job: Job, s: State, w: nat, r: Response, again: bool)
    requires Inv(job, s) && Enabled(job, s, Respond(w, r, again))
    requires !(&& r.status == 206 && r.contentRange.Some?
               && r.contentRange.value.start == s.workers[w].from <= r.contentRange.value.end <= Seg(s, w).end
               && (job.expectedSize.None? || r.contentRange.value.total in {None, job.expectedSize}))
    ensures var t := Apply(job, s, Respond(w, r, again));
            && t.file == s.file && Seg(t, w).written == Seg(s, w).written
            && if again && (300 <= r.status < 400 || (r.status == 206 && r.contentRange.None?)
                            || ShouldRetryStatus(r.status))
               then t.workers[w].Idle? && Seg(t, w) == Seg(s, w)
               else t.workers[w].Stopped? && Seg(t, w).state == Failed
  {
  }

  /** Crediting completes a segment exactly when that fills it. */
  lemma CreditCompletes(job: Job, s: State, w: nat)
    requires Inv(job, s) && Enabled(job, s, Credit(w))
    ensures var seg := Seg(Apply(job, s, Credit(w)), w);
            && seg.written == s.workers[w].offset - seg.start
            && seg.state == if seg.written == LengthOf(seg) then Completed else Seg(s, w).state
  {
    SegmentBounds(job, s, w);
    assert WorkerOk(job, Seg(s, w), s.high[w], s.workers[w]);
  }

  /** A stream that breaks for good fails its segment; one that ends with the segment full completes it; after
      any other end the worker begins again. No end of a stream changes the file or a count. */
  lemma StreamEnds(job: Job, s: State, w: nat, result: StreamResult)
    requires Inv(job, s) && Enabled(job, s, EndStream(w, result))
    ensures var t := Apply(job, s, EndStream(w, result)); var full := Seg(s, w).written == LengthOf(Seg(s, w));
            && t.file == s.file && Seg(t, w).written == Seg(s, w).written
            && (result == Broken ==> t.workers[w].Stopped? && Seg(t, w).state == Failed)
            && (result == Exhausted && full ==> t.workers[w].Stopped? && Seg(t, w).state == Completed)
            && (result == Reconnect || (result == Exhausted && !full) ==> t.workers[w].Idle? && Seg(t, w) == Seg(s, w))
  {
    SegmentBounds(job, s, w);
  }

  /** Preallocating gives the file its whole length: its bytes stay, and zeros follow. */
  lemma PreallocationAddsZeros(job: Job, s: State)
    requires Inv(job, s) && Enabled(job, s, Preallocate)
    ensures var t := Apply(job, s, Preallocate);
            && |t.file| == s.segmentMap.totalBytes && t.segmentMap == s.segmentMap.(preallocated := true)
            && forall p :: 0 <= p < |t.file| ==> t.file[p] == if p < |s.file| then s.file[p] else 0
  {
  }

  /** A stopped worker whose segment did not fail has filled it. */
  ghost predicate StoppedRight(s: State, w: nat)
    requires IsWorker(s, w)
  {
    s.workers[w].Stopped? && Seg(s, w).state != Failed ==>
      Seg(s, w).state == Completed && Seg(s, w).written == LengthOf(Seg(s, w))
  }

  lemma StepStopsRight(job: Job, s: State, step: Step, w: nat)
    requires Inv(job, s) && Enabled(job, s, step) && IsWorker(s, w) && StoppedRight(s, w) && !Disturbs(step, w)
    ensures IsWorker(Apply(job, s, step), w) && StoppedRight(Apply(job, s, step), w)
  {
    SegmentBounds(job, s, w);
    if Elsewhere(step, w) {
      ElsewhereUntouched(job, s, step, w);
    }
  }

  /** In every run a worker that was not aborted stops only with its segment failed, or completed and full. */
  lemma {:induction false} StoppedMeansDone(job: Job, s: State, steps: seq<Step>, w: nat)
    requires Inv(job, s) && Exec(job, s, steps).Some? && IsWorker(s, w) && StoppedRight(s, w) && Undisturbed(steps, w)
    ensures IsWorker(Exec(job, s, steps).value, w) && StoppedRight(Exec(job, s, steps).value, w)
    decreases |steps|
  {
    if steps != [] {
      StepKeepsInv(job, s, steps[0]);
      StepStopsRight(job, s, steps[0], w);
      assert forall i :: 0 <= i < |steps[1..]| ==> steps[1..][i] == steps[i + 1];
      StoppedMeansDone(job, Apply(job, s, steps[0]), steps[1..], w);
    }
  }

  /** The write of an aborted worker may still land, and then leaves the file as if the worker had gone on. */
  lemma AbortedWriteMayLand(job: Job, s: State, w: nat)
    requires Enabled(job, s, Land(w))
    ensures var t := Apply(job, s, Abort(w)); var k := |s.orphans|;
            && Enabled(job, t, LandOrphan(k, |s.workers[w].data|))
            && Apply(job, t, LandOrphan(k, |s.workers[w].data|)).file == Apply(job, s, Land(w)).file
            && Apply(job, t, LandOrphan(k, |s.workers[w].data|)).orphans == s.orphans
  {
    var data := s.workers[w].data;
    assert data[..|data|] == data;
  }

  // ----- Finishing

  lemma {:induction false} ExecSplit(job: Job, s: State, a: seq<Step>, b: seq<Step>)
    requires Exec(job, s, a).Some?
    ensures Exec(job, s, a + b) == Exec(job, Exec(job, s, a).value, b)
    decreases |a|
  {
    if a == [] {
      assert a + b == b;
    } else {
      assert (a + b)[1..] == a[1..] + b;
      ExecSplit(job, Apply(job, s, a[0]), a[1..], b);
    }
  }

  lemma {:induction false} RunElsewhere(job: Job, s: State, steps: seq<Step>, w: nat)
    requires Exec(job, s, steps).Some? && IsWorker(s, w) && forall i :: 0 <= i < |steps| ==> Elsewhere(steps[i], w)
    ensures var t := Exec(job, s, steps).value; IsWorker(t, w) && Seg(t, w) == Seg(s, w) && t.workers[w] == s.workers[w]
    decreases |steps|
  {
    if steps != [] {
      ElsewhereUntouched(job, s, steps[0], w);
      RunElsewhere(job, Apply(job, s, steps[0]), steps[1..], w);
    }
  }

  function Accepting(w: nat, from: nat, last: nat): Step {
    Respond(w, Response(206, Some(ContentRange(from, last, None))), false)
  }

  /** The worker asks for the rest and gets an answer up to `last`. */
  lemma Opens(job: Job, s: State, w: nat, last: nat) returns (steps: seq<Step>, t: State)
    requires Inv(job, s) && IsWorker(s, w) && s.workers[w].Idle?
    requires Seg(s, w).start + Seg(s, w).written <= last <= Seg(s, w).end
    ensures var from := Seg(s, w).start + Seg(s, w).written;
            && steps == [Begin(w), Accepting(w, from, last)] && Exec(job, s, steps) == Some(t)
            && IsWorker(t, w) && t.workers[w] == Streaming(from, from, last)
            && Seg(t, w).written == Seg(s, w).written
  {
    SegmentBounds(job, s, w);
    var from := Seg(s, w).start + Seg(s, w).written;
    var mid := Apply(job, s, Begin(w));
    assert mid.workers[w] == Fetching(from);
    OneStep(job, mid, Accepting(w, from, last));
    steps := [Begin(w), Accepting(w, from, last)];
    assert steps[1..] == [Accepting(w, from, last)];
    t := Apply(job, mid, Accepting(w, from, last));
  }

  /** The body arrives in one chunk, lands and is credited. */
  lemma Reads(job: Job, s: State, w: nat, from: nat, last: nat) returns (steps: seq<Step>, t: State)
    requires Inv(job, s) && IsWorker(s, w) && s.workers[w] == Streaming(from, from, last) && from <= last
    ensures |job.remote| > last
    ensures steps == [Chunk(w, job.remote[from..last + 1]), Land(w), Credit(w)] && Exec(job, s, steps) == Some(t)
    ensures IsWorker(t, w) && t.workers[w] == Streaming(last + 1, last + 1, last)
    ensures Seg(t, w).written == last + 1 - Seg(s, w).start && SameShape(Seg(s, w), Seg(t, w))
  {
    SegmentBounds(job, s, w);
    assert WorkerOk(job, Seg(s, w), s.high[w], s.workers[w]);
    var data := job.remote[from..last + 1];
    steps := [Chunk(w, data), Land(w), Credit(w)];
    ChunkIsOneWrite(job, s, w, data);
    t := Exec(job, s, steps).value;
  }

  /** The worker has asked for the rest and read all of an answer up to `last`. */
  lemma OpensAndReads(job: Job, s: State, w: nat, last: nat) returns (steps: seq<Step>, t: State)
    requires Inv(job, s) && IsWorker(s, w) && s.workers[w].Idle?
    requires Seg(s, w).start + Seg(s, w).written <= last <= Seg(s, w).end
    ensures Exec(job, s, steps) == Some(t) && Inv(job, t) && OwnedAll(steps, w)
    ensures IsWorker(t, w) && t.workers[w] == Streaming(last + 1, last + 1, last)
    ensures SameShape(Seg(s, w), Seg(t, w)) && Seg(t, w).written == last + 1 - Seg(t, w).start
  {
    var opening, mid := Opens(job, s, w, last);
    RunKeepsInv(job, s, opening);
    KeepsShape(job, s, opening, w);
    var reading;
    reading, t := Reads(job, mid, w, Seg(s, w).start + Seg(s, w).written, last);
    RunKeepsInv(job, mid, reading);
    ExecSplit(job, s, opening, reading);
    steps := opening + reading;
  }

  /** A round that serves all of an answer up to `last`: the count goes there, and the worker stops with
      its segment completed when that is the end, or begins again. */
  lemma ServeRound(job: Job, s: State, w: nat, last: nat) returns (steps: seq<Step>, t: State)
    requires Inv(job, s) && IsWorker(s, w) && s.workers[w].Idle?
    requires Seg(s, w).start + Seg(s, w).written <= last <= Seg(s, w).end
    ensures Exec(job, s, steps) == Some(t) && Inv(job, t) && OwnedAll(steps, w)
    ensures IsWorker(t, w) && SameShape(Seg(s, w), Seg(t, w)) && Seg(t, w).written == last + 1 - Seg(t, w).start
    ensures if last == Seg(s, w).end then t.workers[w].Stopped? && Seg(t, w).state == Completed
            else t.workers[w].Idle?
  {
    var before, read := OpensAndReads(job, s, w, last);
    SegmentBounds(job, read, w);
    t := Apply(job, read, EndStream(w, Exhausted));
    StepKeepsInv(job, read, EndStream(w, Exhausted));
    OneStep(job, read, EndStream(w, Exhausted));
    ExecSplit(job, s, before, [EndStream(w, Exhausted)]);
    steps := before + [EndStream(w, Exhausted)];
  }

  /** A step of worker `w` and of nothing else. */
  predicate Owned(step: Step, w: nat) {
    match step
    case Begin(v) => v == w
    case Respond(v, _, _) => v == w
    case Chunk(v, _) => v == w
    case Land(v) => v == w
    case Credit(v) => v == w
    case EndStream(v, _) => v == w
    case _ => false
  }

  predicate OwnedAll(steps: seq<Step>, w: nat) { forall i :: 0 <= i < |steps| ==> Owned(steps[i], w) }

  /** However short the answers: as long as each is served whole and the next one begins where it ended, the
      segment fills up and its worker stops with it completed. */
  lemma {:induction false} ShortAnswersFill(job: Job, s: State, w: nat, lasts: seq<nat>)
    returns (steps: seq<Step>, t: State)
    requires Inv(job, s) && IsWorker(s, w) && s.workers[w].Idle? && lasts != [] && lasts[|lasts| - 1] == Seg(s, w).end
    requires Seg(s, w).start + Seg(s, w).written <= lasts[0]
    requires forall i :: 0 < i < |lasts| ==> lasts[i - 1] < lasts[i]
    requires forall i :: 0 <= i < |lasts| ==> lasts[i] <= Seg(s, w).end
    ensures Exec(job, s, steps) == Some(t) && Inv(job, t) && OwnedAll(steps, w)
    ensures IsWorker(t, w) && t.workers[w].Stopped? && Seg(t, w).state == Completed
    ensures SameShape(Seg(s, w), Seg(t, w)) && Seg(t, w).written == LengthOf(Seg(t, w))
    decreases |lasts|
  {
    var first, mid := ServeRound(job, s, w, lasts[0]);
    if |lasts| == 1 {
      steps, t := first, mid;
    } else {
      assert lasts[0] < lasts[1] <= Seg(s, w).end;
      var rest;
      rest, t := ShortAnswersFill(job, mid, w, lasts[1..]);
      ExecSplit(job, s, first, rest);
      steps := first + rest;
    }
  }

  /** After a restart exactly the workers of segments that are not full are idle. */
  lemma RestartWakes(job: Job, s: State)
    requires Inv(job, s) && Enabled(job, s, Restart)
    ensures var t := Apply(job, s, Restart);
            && Inv(job, t) && t.segmentMap == s.segmentMap && |t.workers| == |s.workers|
            && forall w :: 0 <= w < |t.workers| ==>
                 t.workers[w] == if Seg(s, w).written == LengthOf(Seg(s, w)) then Stopped else Idle
  {
    StepKeepsInv(job, s, Restart);
    forall w | 0 <= w < |s.workers| ensures IsWorker(s, w) && Seg(s, w).Length() == LengthOf(Seg(s, w)) {
      SegmentBounds(job, s, w);
    }
    forall w | 0 <= w < |s.workers| ensures Seg(s, w).written <= LengthOf(Seg(s, w)) {
      SegmentBounds(job, s, w);
    }
  }

  /** Worker `w` has nothing left to do, or nothing keeps it from doing it. */
  ghost predicate FullOrIdle(s: State, w: nat)
    requires IsWorker(s, w)
  {
    s.workers[w].Idle? || Seg(s, w).written == LengthOf(Seg(s, w))
  }

  /** Each worker from `w` on serves the rest of its segment in one round. */
  lemma {:induction false} ServeAll(job: Job, s: State, w: nat) returns (steps: seq<Step>, t: State)
    requires Inv(job, s) && w <= |s.workers|
    requires forall v :: 0 <= v < |s.workers| ==> FullOrIdle(s, v)
    requires forall v :: 0 <= v < w ==> Seg(s, v).written == LengthOf(Seg(s, v))
    ensures Exec(job, s, steps) == Some(t) && Inv(job, t) && |t.workers| == |s.workers|
    ensures forall v :: 0 <= v < |t.workers| ==> Seg(t, v).written == LengthOf(Seg(t, v))
    decreases |s.workers| - w
  {
    if w == |s.workers| {
      steps, t := [], s;
    } else {
      SegmentBounds(job, s, w);
      var first, mid := [], s;
      if Seg(s, w).written < LengthOf(Seg(s, w)) {
        assert FullOrIdle(s, w);
        first, mid := ServeRound(job, s, w, Seg(s, w).end);
        OthersWait(job, s, first, w);
      }
      forall v | 0 <= v < |mid.workers| ensures FullOrIdle(mid, v) {
        assert FullOrIdle(s, v);
      }
      var rest;
      rest, t := ServeAll(job, mid, w + 1);
      ExecSplit(job, s, first, rest);
      steps := first + rest;
    }
  }

  lemma OthersWait(job: Job, s: State, steps: seq<Step>, w: nat)
    requires Inv(job, s) && Exec(job, s, steps).Some? && OwnedAll(steps, w)
    ensures var t := Exec(job, s, steps).value;
            && |t.workers| == |s.workers|
            && forall v :: 0 <= v < |s.workers| && v != w ==>
                 IsWorker(t, v) && Seg(t, v) == Seg(s, v) && t.workers[v] == s.workers[v]
  {
    WorkerCount(job, s, steps);
    forall v | 0 <= v < |s.workers| && v != w
      ensures var t := Exec(job, s, steps).value;
              IsWorker(t, v) && Seg(t, v) == Seg(s, v) && t.workers[v] == s.workers[v]
    {
      assert forall i :: 0 <= i < |steps| ==> Owned(steps[i], w) ==> Elsewhere(steps[i], v);
      RunElsewhere(job, s, steps, v);
    }
  }

  lemma {:induction false} WorkerCount(job: Job, s: State, steps: seq<Step>)
    requires Exec(job, s, steps).Some?
    ensures |Exec(job, s, steps).value.workers| == |s.workers|
    decreases |steps|
  {
    if steps != [] {
      WorkerCount(job, Apply(job, s, steps[0]), steps[1..]);
    }
  }

  lemma StillReachable(job: Job, total: U64, n: U32, s: State, steps: seq<Step>)
    requires Reachable(job, total, n, s) && Exec(job, s, steps).Some?
    ensures Reachable(job, total, n, Exec(job, s, steps).value)
  {
    var before :| Exec(job, Start(job, total, n), before) == Some(s);
    ExecSplit(job, Start(job, total, n), before, steps);
  }

  /** Every transfer can be finished: from whatever state it was stopped in (paused, failed, aborted, with
      writes still in flight, clamped back), some run restarts it and ends with everything counted and
      the file equal to the remote file. */
  lemma EveryTransferCanFinish(job: Job, total: U64, n: U32, s: State) returns (steps: seq<Step>, t: State)
    requires Reachable(job, total, n, s) && forall w :: 0 <= w < |s.workers| ==> s.workers[w].Stopped?
    ensures Exec(job, s, [Restart] + steps) == Some(t)
    ensures WrittenSum(t.segmentMap) == t.segmentMap.totalBytes && t.file == job.remote
  {
    ReachableInv(job, total, n, s);
    ProgressIsNeverALie(job, total, n, s);
    steps, t := RestartAndServe(job, s);
    StillReachable(job, total, n, s, [Restart] + steps);
    WrittenSumReachesTotal(t.segmentMap);
    FullMapMeansWholeFile(job, total, n, t);
  }

  lemma RestartAndServe(job: Job, s: State) returns (steps: seq<Step>, t: State)
    requires Inv(job, s) && Enabled(job, s, Restart)
    ensures Exec(job, s, [Restart] + steps) == Some(t) && Inv(job, t)
    ensures |t.workers| == |t.segmentMap.segments|
    ensures forall v :: 0 <= v < |t.segmentMap.segments| ==>
              t.segmentMap.segments[v].written == LengthOf(t.segmentMap.segments[v])
  {
    RestartWakes(job, s);
    var u := Apply(job, s, Restart);
    forall w | 0 <= w < |u.workers| ensures FullOrIdle(u, w) {
      assert Seg(u, w) == Seg(s, w);
    }
    steps, t := ServeAll(job, u, 0);
    OneStep(job, s, Restart);
    ExecSplit(job, s, [Restart], steps);
    forall v | 0 <= v < |t.segmentMap.segments|
      ensures t.segmentMap.segments[v].written == LengthOf(t.segmentMap.segments[v])
    {
      assert Seg(t, v).written == LengthOf(Seg(t, v));
    }
  }
}
