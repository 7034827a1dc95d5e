/** How the body loop ends, said from outside: from the sink it was given, what the stream did and when,
    and what the control flag and the disk did. A run goes on as long as nothing decisive happens; the
    first decisive round alone makes the answer. */
module StreamAnswers {
  import opened FileBytes
  import opened StreamBody
  import opened Wrappers

  // ----- What went on before

  /** The clock, the time of the last byte, and how far the body has come. */
  datatype Moment = Moment(now: nat, lastByte: nat, offset: nat)

  function MomentOf(l: Loop): Moment { Moment(l.now, l.lastByte, l.sink.offset) }

  /** The offset a body may not pass: the target, the limit of a count, or the end of a range. */
  function EndOf(kind: Kind): Option<nat> {
    match kind
    case Append(target) => target
    case Counting(limit) => limit
    case Positioned(last) => Some(last + 1)
  }

  predicate Fits(kind: Kind, offset: nat, n: nat) { EndOf(kind).None? || offset + n <= EndOf(kind).value }

  predicate OutOfTime(env: Env, m: Moment, r: Round) { m.now + r.gap >= m.lastByte + env.stall }

  /** Nothing decisive: the flag reads `Continue`, the stream is not stalled, and it is silent or yields
      bytes that fit, that the limiter grants and the disk takes. */
  predicate Ordinary(env: Env, kind: Kind, m: Moment, r: Round) {
    && r.control == Continue && !OutOfTime(env, m, r)
    && match r.event
       case Silence(_) => true
       case Data(chunk, _, acquired, _, fault) =>
         chunk == [] || (acquired && (!fault || kind.Counting?) && Fits(kind, m.offset, |chunk|))
       case _ => false
  }

  /** A silent or empty round waits out its poll; a chunk takes its own time and resets the idle clock. */
  function After(env: Env, m: Moment, r: Round): Moment {
    var idle := if m.now + r.gap <= m.lastByte then 0 else m.now + r.gap - m.lastByte;
    var left := if idle <= env.stall then env.stall - idle else 0;
    var wait := if left < 200_000_000 then left else 200_000_000;
    match r.event
    case Silence(extra) => m.(now := m.now + r.gap + wait + extra)
    case Data(chunk, took, _, _, _) =>
      if chunk == [] then m.(now := m.now + r.gap + took + wait)
      else Moment(m.now + r.gap + took, m.now + r.gap + took, m.offset + |chunk|)
    case _ => m
  }

  predicate GoesOn(env: Env, kind: Kind, m: Moment, rounds: seq<Round>)
    decreases |rounds|
  {
    rounds == [] || (Ordinary(env, kind, m, rounds[0]) && GoesOn(env, kind, After(env, m, rounds[0]), rounds[1..]))
  }

  function Later(env: Env, m: Moment, rounds: seq<Round>): Moment
    decreases |rounds|
  {
    if rounds == [] then m else Later(env, After(env, m, rounds[0]), rounds[1..])
  }

  /** All bytes the rounds bring. */
  function Delivered(rounds: seq<Round>): seq<Byte>
    decreases |rounds|
  {
    if rounds == [] then []
    else (if rounds[0].event.Data? then rounds[0].event.chunk else []) + Delivered(rounds[1..])
  }

  lemma OrdinaryStep(env: Env, l: Loop, r: Round)
    requires l.lastByte <= l.now && Ordinary(env, l.sink.kind, MomentOf(l), r)
    ensures var t := Step(env, l, r);
            && t.Again? && MomentOf(t.l) == After(env, MomentOf(l), r) && t.l.lastByte <= t.l.now
            && t.l.sink.kind == l.sink.kind && t.l.taken == l.taken + Delivered([r])
  {
    assert [r][1..] == [];
    if r.event.Data? && r.event.chunk != [] {
      ChunkRound(env, l, r);
    }
  }

  /** Ordinary rounds lead to the moment said, with all their bytes taken, and the run goes on from there. */
  lemma {:induction false} GoingOn(env: Env, l: Loop, rounds: seq<Round>, more: seq<Round>) returns (t: Loop)
    requires l.lastByte <= l.now && GoesOn(env, l.sink.kind, MomentOf(l), rounds)
    ensures Run(env, l, rounds + more) == Run(env, t, more)
    ensures MomentOf(t) == Later(env, MomentOf(l), rounds) && t.lastByte <= t.now
    ensures t.sink.kind == l.sink.kind && t.taken == l.taken + Delivered(rounds)
    decreases |rounds|
  {
    if rounds == [] {
      assert rounds + more == more;
      t := l;
    } else {
      OrdinaryStep(env, l, rounds[0]);
      var next := Step(env, l, rounds[0]).l;
      OneMoreRound(env, l, rounds, more);
      t := GoingOn(env, next, rounds[1..], more);
      TakenInOrder(l.taken, rounds, next.taken, t.taken);
    }
  }

  lemma TakenInOrder(before: seq<Byte>, rounds: seq<Round>, mid: seq<Byte>, after: seq<Byte>)
    requires rounds != []
    requires mid == before + Delivered([rounds[0]]) && after == mid + Delivered(rounds[1..])
    ensures after == before + Delivered(rounds)
  {
    DeliveredSplit(rounds);
  }

  lemma OneMoreRound(env: Env, l: Loop, rounds: seq<Round>, more: seq<Round>)
    requires rounds != [] && Step(env, l, rounds[0]).Again?
    ensures Run(env, l, rounds + more) == Run(env, Step(env, l, rounds[0]).l, rounds[1..] + more)
  {
    assert (rounds + more)[1..] == rounds[1..] + more;
  }

  lemma DeliveredSplit(rounds: seq<Round>)
    requires rounds != []
    ensures Delivered(rounds) == Delivered([rounds[0]]) + Delivered(rounds[1..])
  {
    assert [rounds[0]][1..] == [];
  }

  lemma {:induction false} LaterOffset(env: Env, kind: Kind, m: Moment, rounds: seq<Round>)
    requires GoesOn(env, kind, m, rounds)
    ensures Later(env, m, rounds).offset == m.offset + |Delivered(rounds)|
    decreases |rounds|
  {
    if rounds != [] {
      LaterOffset(env, kind, After(env, m, rounds[0]), rounds[1..]);
    }
  }

  // ----- The decisive round

  /** The answer once the stream has ended: the flag is read a last time, then the length is checked. */
  function AtTheEnd(env: Env, target: Option<nat>, offset: nat): Outcome {
    if env.lastControl != Continue then Stopped(env.lastControl)
    else if target.Some? && offset < target.value then Incomplete
    else if env.policy == UnknownLength then LengthlessEof
    else Exhausted(offset)
  }

  /** Where a body of known size is complete. */
  function TargetAt(kind: Kind): Option<nat> { if kind.Counting? then None else EndOf(kind) }

  /** Nothing is answered before what was written is flushed. */
  function OnceFlushed(env: Env, outcome: Outcome): Outcome { if env.flushFails then DiskError else outcome }

  /** The answer made by a round that is not ordinary. */
  function Answer(env: Env, kind: Kind, m: Moment, r: Round): Outcome {
    var target := TargetAt(kind);
    if r.control != Continue then OnceFlushed(env, Stopped(r.control))
    else if OutOfTime(env, m, r) then OnceFlushed(env, StallError)
    else
      match r.event
      case Silence(_) => Running
      case Eof => OnceFlushed(env, AtTheEnd(env, target, m.offset))
      case Failure =>
        OnceFlushed(env, if target.Some? && 0 < target.value <= m.offset then Exhausted(m.offset) else StreamError)
      case Data(chunk, _, acquired, after, fault) =>
        if (fault && !kind.Counting?) || (kind.Positioned? && !Fits(kind, m.offset, 1)) then DiskError
        else if !kind.Positioned? && !Fits(kind, m.offset, |chunk|) then SizeChanged
        else if !acquired then OnceFlushed(env, Stopped(if after == Continue then Paused else after))
        else if target.Some? then OnceFlushed(env, AtTheEnd(env, target, target.value))  // cut at the end of its range
        else Running
  }

  /** The bytes taken from the stream in a round: those of a chunk that is polled for in time. */
  function Taken(env: Env, m: Moment, r: Round): seq<Byte> {
    if r.control == Continue && !OutOfTime(env, m, r) && r.event.Data? then r.event.chunk else []
  }

  lemma DecisiveStep(env: Env, l: Loop, r: Round, more: seq<Round>)
    requires l.lastByte <= l.now && !Ordinary(env, l.sink.kind, MomentOf(l), r)
    ensures var end := Run(env, l, [r] + more);
            && end.Return? && end.outcome == Answer(env, l.sink.kind, MomentOf(l), r)
            && end.l.taken == l.taken + Taken(env, MomentOf(l), r)
  {
    assert ([r] + more)[0] == r;
    if BringsBytes(env, l, r) {
      ChunkRound(env, l, r);
      DecisiveChunk(env, l, l.now + r.gap + r.event.took, r);
    }
  }

  lemma DecisiveChunk(env: Env, l: Loop, now: nat, r: Round)
    requires !Ordinary(env, l.sink.kind, MomentOf(l), r) && r.control == Continue && !OutOfTime(env, MomentOf(l), r)
    requires r.event.Data? && r.event.chunk != []
    ensures var t := TakeChunk(env, l, now, r.event);
            match t
            case Again(_) => false
            case Break(u) =>
              && Finish(env, u).Return? && Finish(env, u).outcome == Answer(env, l.sink.kind, MomentOf(l), r)
              && Finish(env, u).l.taken == l.taken + r.event.chunk
            case Return(u, outcome) =>
              outcome == Answer(env, l.sink.kind, MomentOf(l), r) && u.taken == l.taken + r.event.chunk
  {
  }

  // ----- Main results

  /** The first round that is not ordinary, or the number of rounds. */
  function Decisive(env: Env, kind: Kind, m: Moment, rounds: seq<Round>): (k: nat)
    ensures k <= |rounds| && GoesOn(env, kind, m, rounds[..k])
    ensures k < |rounds| ==> !Ordinary(env, kind, Later(env, m, rounds[..k]), rounds[k])
    decreases |rounds|
  {
    if rounds == [] || !Ordinary(env, kind, m, rounds[0]) then 0
    else
      var k := Decisive(env, kind, After(env, m, rounds[0]), rounds[1..]);
      assert rounds[..k + 1] == [rounds[0]] + rounds[1..][..k];
      k + 1
  }

  function Opening(start: Sink): Moment { Moment(0, 0, start.offset) }

  /** Every run, on every sink: it goes on while its rounds are ordinary and takes all they bring, and the
      first other round alone makes the answer. */
  lemma AnswerOfRun(env: Env, start: Sink, rounds: seq<Round>)
    ensures var end := Run(env, Begin(start), rounds);
            var k := Decisive(env, start.kind, Opening(start), rounds);
            var m := Later(env, Opening(start), rounds[..k]);
            && end.Return?
            && (end.outcome == if k == |rounds| then Running else Answer(env, start.kind, m, rounds[k]))
            && (end.l.taken == Delivered(rounds[..k]) + if k == |rounds| then [] else Taken(env, m, rounds[k]))
  {
    var k := Decisive(env, start.kind, Opening(start), rounds);
    if k == |rounds| {
      assert rounds[..k] + [] == rounds == rounds[..k];
      var t := GoingOn(env, Begin(start), rounds, []);
    } else {
      AnswerAt(env, start, rounds[..k], rounds[k], rounds[k + 1..]);
      assert rounds == rounds[..k] + ([rounds[k]] + rounds[k + 1..]);
    }
  }

  lemma AnswerAt(env: Env, start: Sink, before: seq<Round>, r: Round, more: seq<Round>)
    requires GoesOn(env, start.kind, Opening(start), before)
    requires !Ordinary(env, start.kind, Later(env, Opening(start), before), r)
    ensures var end := Run(env, Begin(start), before + ([r] + more)); var m := Later(env, Opening(start), before);
            && end.Return? && end.outcome == Answer(env, start.kind, m, r)
            && end.l.taken == Delivered(before) + Taken(env, m, r)
  {
    var t := GoingOn(env, Begin(start), before, [r] + more);
    DecisiveStep(env, t, r, more);
  }

  lemma {:induction false} DecisiveIs(env: Env, kind: Kind, m: Moment, before: seq<Round>, rounds: seq<Round>)
    requires before < rounds && GoesOn(env, kind, m, before)
    requires !Ordinary(env, kind, Later(env, m, before), rounds[|before|])
    ensures Decisive(env, kind, m, rounds) == |before|
    decreases |before|
  {
    if before != [] {
      assert before[0] == rounds[0] && rounds[1..][|before| - 1] == rounds[|before|];
      DecisiveIs(env, kind, After(env, m, before[0]), before[1..], rounds[1..]);
    }
  }

  /** The stream ends in time at round `k`, after ordinary rounds only. */
  predicate EndsAt(env: Env, start: Sink, rounds: seq<Round>, k: nat) {
    && k < |rounds| && GoesOn(env, start.kind, Opening(start), rounds[..k])
    && rounds[k].control == Continue && rounds[k].event.Eof?
    && !OutOfTime(env, Later(env, Opening(start), rounds[..k]), rounds[k])
  }

  lemma AnswerAtTheEnd(env: Env, start: Sink, rounds: seq<Round>, k: nat)
    requires EndsAt(env, start, rounds, k)
    ensures Run(env, Begin(start), rounds).Return?
    ensures Run(env, Begin(start), rounds).outcome ==
            OnceFlushed(env, AtTheEnd(env, TargetAt(start.kind), start.offset + |Delivered(rounds[..k])|))
    ensures Run(env, Begin(start), rounds).l.taken == Delivered(rounds[..k])
  {
    DecisiveIs(env, start.kind, Opening(start), rounds[..k], rounds);
    LaterOffset(env, start.kind, Opening(start), rounds[..k]);
    AnswerOfRun(env, start, rounds);
  }

  /** A body that brings all it should is reported as finished, with its length: on a sink of known size
      when the bytes reach it exactly, otherwise whatever their number. */
  lemma WholeBodyIsExhausted(env: Env, start: Sink, rounds: seq<Round>, k: nat)
    requires EndsAt(env, start, rounds, k)
    requires env.policy == Complete && env.lastControl == Continue && !env.flushFails
    requires TargetAt(start.kind).Some? ==> start.offset + |Delivered(rounds[..k])| == TargetAt(start.kind).value
    ensures Run(env, Begin(start), rounds).Return?
    ensures Run(env, Begin(start), rounds).outcome == Exhausted(start.offset + |Delivered(rounds[..k])|)
  {
    AnswerAtTheEnd(env, start, rounds, k);
  }

  /** The stream ends short of the target. */
  predicate EndsShort(env: Env, start: Sink, rounds: seq<Round>, k: nat) {
    && EndsAt(env, start, rounds, k) && TargetAt(start.kind).Some?
    && start.offset + |Delivered(rounds[..k])| < TargetAt(start.kind).value
  }

  /** Without a target, a stream that ends is a finished body unless it is a bare HTTP/1 close: no length, and
      no chunked coding that would have ended it. */
  lemma EndWithoutTarget(env: Env, start: Sink, rounds: seq<Round>, k: nat, version: Version, length: Option<nat>,
                         chunked: bool)
    requires EndsAt(env, start, rounds, k) && TargetAt(start.kind).None?
    requires env.lastControl == Continue && !env.flushFails
    requires env.policy == EosPolicy(version, length, chunked, TargetAt(start.kind))
    ensures Run(env, Begin(start), rounds).Return?
    ensures Run(env, Begin(start), rounds).outcome ==
            if version == Http1 && length.None? && !chunked then LengthlessEof
            else Exhausted(start.offset + |Delivered(rounds[..k])|)
  {
    AnswerAtTheEnd(env, start, rounds, k);
  }

  /** With a target, the end of the stream is judged by the target alone. */
  lemma TargetMeansComplete(version: Version, length: Option<nat>, chunked: bool, target: Option<nat>)
    ensures EosPolicy(version, length, chunked, target) == UnknownLength <==>
            target.None? && length.None? && !chunked && version == Http1
  {
  }

  /** `Incomplete` is answered exactly when the stream ends in time and in order, short of the target. */
  lemma IncompleteIff(env: Env, start: Sink, rounds: seq<Round>)
    ensures Run(env, Begin(start), rounds).Return?
    ensures Run(env, Begin(start), rounds).outcome == Incomplete <==>
            env.lastControl == Continue && !env.flushFails && exists k: nat :: EndsShort(env, start, rounds, k)
  {
    AnswerOfRun(env, start, rounds);
    if Run(env, Begin(start), rounds).outcome == Incomplete {
      IncompleteEndsShort(env, start, rounds);
    }
    if k: nat :| EndsShort(env, start, rounds, k) {
      AnswerAtTheEnd(env, start, rounds, k);
    }
  }

  lemma IncompleteEndsShort(env: Env, start: Sink, rounds: seq<Round>)
    requires Run(env, Begin(start), rounds) == Return(Run(env, Begin(start), rounds).l, Incomplete)
    ensures env.lastControl == Continue && !env.flushFails
    ensures EndsShort(env, start, rounds, Decisive(env, start.kind, Opening(start), rounds))
  {
    AnswerOfRun(env, start, rounds);
    var k := Decisive(env, start.kind, Opening(start), rounds);
    LaterOffset(env, start.kind, Opening(start), rounds[..k]);
  }

  /** The flag that a pause or a cancel carries: the one read in the decisive round, the one read after the
      stream has ended, or the one that made the limiter give up, where a flag cleared since counts as a
      pause. */
  predicate FlagRead(env: Env, start: Sink, rounds: seq<Round>, k: nat, flag: Control)
    requires k < |rounds|
  {
    var r := rounds[k];
    if r.control != Continue then flag == r.control
    else if r.event.Data? && !r.event.acquired then flag == if r.event.after == Continue then Paused else r.event.after
    else flag == env.lastControl && (r.event.Eof? || (r.event.Data? && start.kind.Positioned?))
  }

  /** A stopped run carries the flag that was read, never another one and never `Continue`. */
  lemma StoppedCarriesTheFlag(env: Env, start: Sink, rounds: seq<Round>)
    ensures var end := Run(env, Begin(start), rounds);
            var k := Decisive(env, start.kind, Opening(start), rounds);
            && end.Return?
            && (end.outcome.Stopped? ==>
                  end.outcome.control != Continue && k < |rounds|
                  && FlagRead(env, start, rounds, k, end.outcome.control))
            && (k < |rounds| && rounds[k].control != Continue && !env.flushFails ==>
                  end.outcome == Stopped(rounds[k].control))
  {
    AnswerOfRun(env, start, rounds);
  }

  /** A target is reached: a range that a longer chunk fills, or a stream that breaks off after the last
      byte, are finished bodies all the same. */
  lemma ReachedIsExhausted(env: Env, start: Sink, rounds: seq<Round>, k: nat)
    requires k < |rounds| && GoesOn(env, start.kind, Opening(start), rounds[..k])
    requires rounds[k].control == Continue && !OutOfTime(env, Later(env, Opening(start), rounds[..k]), rounds[k])
    requires env.policy == Complete && env.lastControl == Continue && !env.flushFails
    requires var r := rounds[k]; var n := start.offset + |Delivered(rounds[..k])|; var target := TargetAt(start.kind);
             || (r.event.Failure? && target.Some? && 0 < target.value == n)
             || (r.event.Data? && r.event.acquired && !r.event.fault && start.kind.Positioned?
                 && n < target.value < n + |r.event.chunk|)
    ensures Run(env, Begin(start), rounds).Return?
    ensures Run(env, Begin(start), rounds).outcome == Exhausted(TargetAt(start.kind).value)
  {
    LaterOffset(env, start.kind, Opening(start), rounds[..k]);
    DecisiveIs(env, start.kind, Opening(start), rounds[..k], rounds);
    AnswerOfRun(env, start, rounds);
  }
}
