/** Streaming a response body into a sink: what is written, what is credited,
    how the loop ends, and that it ends. Times are nanoseconds. */
module StreamBody {
  import opened FileBytes
  import opened Wrappers

  // ----- Sinks

  datatype Kind =
    | Append(target: Option<nat>)   // buffered, at the end of a partial file
    | Counting(limit: Option<nat>)  // counts a repeated body, writes nothing
    | Positioned(last: nat)         // one byte range of a shared file

  /** `pending` is what the buffered writer holds; it belongs right before `offset`. */
  datatype Sink = Sink(kind: Kind, file: seq<Byte>, pending: seq<Byte>, offset: nat)

  datatype WriteResult = Wrote(n: nat) | Overrun | DiskFault

  function Flushed(s: Sink): Sink {
    if 0 < |s.pending| <= s.offset
    then s.(file := PutBytes(s.file, s.offset - |s.pending|, s.pending), pending := [])
    else s
  }

  function Buffer(s: Sink, data: seq<Byte>): Sink { s.(pending := s.pending + data, offset := s.offset + |data|) }

  function Room(end: nat, offset: nat): nat { if offset <= end then end - offset else 0 }

  function WriteChunk(s: Sink, data: seq<Byte>, fault: bool): (Sink, WriteResult) {
    if data == [] then (s, Wrote(0))
    else
      match s.kind
      case Append(None) => if fault then (s, DiskFault) else (Buffer(s, data), Wrote(|data|))
      case Append(Some(target)) =>
        var room := Room(target, s.offset);
        if fault then (s, DiskFault)
        else if |data| <= room then (Buffer(s, data), Wrote(|data|))
        else (Flushed(Buffer(s, data[..room])), Overrun)
      case Counting(None) => (s.(offset := s.offset + |data|), Wrote(|data|))
      case Counting(Some(limit)) =>
        var room := Room(limit, s.offset);
        if |data| <= room then (s.(offset := s.offset + |data|), Wrote(|data|))
        else (s.(offset := s.offset + (if room + 1 <= |data| then room + 1 else |data|)), Overrun)
      case Positioned(last) =>
        if fault || s.offset > last then (s, DiskFault)
        else
          var kept := Capped(data, s.offset, last);
          (s.(file := PutBytes(s.file, s.offset, kept), offset := s.offset + |kept|), Wrote(|kept|))
  }

  /** A write of nothing does nothing, whatever the sink, even past its end or on a broken disk. */
  lemma EmptyWrite(s: Sink, fault: bool)
    ensures WriteChunk(s, [], fault) == (s, Wrote(0))
  {
  }

  function TargetOf(s: Sink): Option<nat> {
    match s.kind
    case Append(target) => target
    case Counting(_) => None
    case Positioned(last) => Some(last + 1)
  }

  predicate TargetReached(s: Sink) { TargetOf(s).Some? && TargetOf(s).value > 0 && s.offset >= TargetOf(s).value }

  class BodySink {
    const kind: Kind
    var file: seq<Byte>
    var pending: seq<Byte>
    var offset: nat

    function View(): Sink
      reads this
    { Sink(kind, file, pending, offset) }

    constructor (kind: Kind, file: seq<Byte>, offset: nat)
      ensures View() == Sink(kind, file, [], offset)
    {
      this.kind := kind;
      this.file := file;
      this.pending := [];
      this.offset := offset;
    }

    method FlushBuffer()
      modifies this`file, this`pending
      ensures View() == Flushed(old(View()))
    {
      if 0 < |pending| <= offset {
        file := PutBytes(file, offset - |pending|, pending);
        pending := [];
      }
    }

    method Write(data: seq<Byte>, fault: bool) returns (r: WriteResult)
      modifies this
      ensures (View(), r) == WriteChunk(old(View()), data, fault)
    {
      if data == [] {
        return Wrote(0);
      }
      match kind {
        case Append(target) =>
          if fault {
            return DiskFault;
          }
          if target.None? || |data| <= Room(target.value, offset) {
            pending, offset := pending + data, offset + |data|;
            return Wrote(|data|);
          }
          var keep := Room(target.value, offset);
          if keep > 0 {
            pending, offset := pending + data[..keep], offset + keep;
          }
          assert pending == old(pending) + data[..keep];
          FlushBuffer();
          return Overrun;
        case Counting(limit) =>
          if limit.None? || |data| <= Room(limit.value, offset) {
            offset := offset + |data|;
            return Wrote(|data|);
          }
          var keep := Room(limit.value, offset) + 1;
          offset := offset + if keep <= |data| then keep else |data|;
          return Overrun;
        case Positioned(last) =>
          if fault || offset > last {
            return DiskFault;
          }
          var kept := Capped(data, offset, last);
          file, offset := PutBytes(file, offset, kept), offset + |kept|;
          return Wrote(|kept|);
      }
    }
  }

  // ----- The loop

  const CONTROL_POLL: nat := 200_000_000

  datatype Control = Continue | Paused | Canceled

  datatype Version = Http1 | Http2 | Http3

  datatype Policy = Complete | UnknownLength

  function EosPolicy(version: Version, contentLength: Option<nat>, chunked: bool, target: Option<nat>): Policy {
    if target.Some? || contentLength.Some? || chunked then Complete
    else if version.Http1? then UnknownLength
    else Complete
  }

  /** What polling the stream yields. `took` and `extra` are time that passes. */
  datatype Event =
    | Silence(extra: nat)
    | Eof
    | Failure
    | Data(chunk: seq<Byte>, took: nat, acquired: bool, after: Control, fault: bool)

  /** One turn of the loop: the control flag it reads, a scheduling gap, and the poll. */
  datatype Round = Round(control: Control, gap: nat, event: Event)

  datatype Env = Env(stall: nat, policy: Policy, lastControl: Control, flushFails: bool)

  datatype Outcome =
    | Running  // the given rounds are used up and the loop goes on
    | Exhausted(downloaded: nat)
    | Stopped(control: Control)
    | StreamError
    | StallError
    | Incomplete
    | LengthlessEof
    | SizeChanged
    | DiskError

  /** `credited` sums the `on_chunk` calls; `taken` is every byte dequeued from the stream. */
  datatype Loop = Loop(sink: Sink, now: nat, lastByte: nat, credited: nat, taken: seq<Byte>)

  datatype Next = Again(l: Loop) | Break(l: Loop) | Return(l: Loop, outcome: Outcome)

  function FlushThen(env: Env, l: Loop, outcome: Outcome): Next {
    if env.flushFails then Return(l, DiskError) else Return(l.(sink := Flushed(l.sink)), outcome)
  }

  function Idle(l: Loop, r: Round): nat { Room(l.now + r.gap, l.lastByte) }

  function Wait(env: Env, idle: nat): nat {
    if Room(env.stall, idle) < CONTROL_POLL then Room(env.stall, idle) else CONTROL_POLL
  }

  function TakeChunk(env: Env, l: Loop, now: nat, e: Event): Next
    requires e.Data?
  {
    var (sink, written) := WriteChunk(l.sink, e.chunk, e.fault);
    var t := l.(sink := sink, now := now, taken := l.taken + e.chunk);
    match written
    case DiskFault => Return(t, DiskError)
    case Overrun => Return(t, SizeChanged)
    case Wrote(n) =>
      var c := t.(lastByte := now, credited := l.credited + n);
      if !e.acquired then FlushThen(env, c, Stopped(if e.after == Continue then Paused else e.after))
      else if n == 0 || n < |e.chunk| then Break(c)
      else Again(c)
  }

  function Step(env: Env, l: Loop, r: Round): Next {
    if r.control != Continue then FlushThen(env, l, Stopped(r.control))
    else
      var idle := Idle(l, r);
      if idle >= env.stall then FlushThen(env, l, StallError)
      else
        var wait := Wait(env, idle);
        var now := l.now + r.gap;
        match r.event
        case Silence(extra) => Again(l.(now := now + wait + extra))
        case Eof => Break(l)
        case Failure =>
          FlushThen(env, l, if TargetReached(l.sink) then Exhausted(l.sink.offset) else StreamError)
        case Data(chunk, took, _, _, _) =>
          if chunk == [] then Again(l.(now := now + took + wait)) else TakeChunk(env, l, now + took, r.event)
  }

  /** After the loop: the control flag once more, a flush, and the length checks. */
  function Finish(env: Env, l: Loop): Next {
    if env.lastControl != Continue then FlushThen(env, l, Stopped(env.lastControl))
    else
      FlushThen(env, l,
                if TargetOf(l.sink).Some? && l.sink.offset < TargetOf(l.sink).value then Incomplete
                else if env.policy == UnknownLength then LengthlessEof
                else Exhausted(l.sink.offset))
  }

  function Run(env: Env, l: Loop, rounds: seq<Round>): Next
    decreases |rounds|
  {
    if rounds == [] then Return(l, Running)
    else
      match Step(env, l, rounds[0])
      case Again(t) => Run(env, t, rounds[1..])
      case Break(t) => Finish(env, t)
      case Return(t, outcome) => Return(t, outcome)
  }

  function Begin(sink: Sink): Loop { Loop(sink, 0, 0, 0, []) }

  datatype Turn = KeepGoing | LeaveLoop | Answer(outcome: Outcome)

  /** One turn of the loop. */
  method PollOnce(sink: BodySink, env: Env, before: Clock, r: Round)
    returns (turn: Turn, clock: Clock, ghost got: seq<Byte>)
    modifies sink
    ensures forall taken ::
              Step(env, LoopOf(old(sink.View()), before, taken), r) ==
              match turn
              case KeepGoing => Again(LoopOf(sink.View(), clock, taken + got))
              case LeaveLoop => Break(LoopOf(sink.View(), clock, taken + got))
              case Answer(outcome) => Return(LoopOf(sink.View(), clock, taken + got), outcome)
  {
    clock, got := before, [];
    assert forall taken: seq<Byte> :: taken + [] == taken;
    if r.control != Continue {
      var outcome := FlushAnd(sink, env, Stopped(r.control));
      return Answer(outcome), clock, got;
    }
    var idle := Room(before.now + r.gap, before.lastByte);
    if idle >= env.stall {
      var outcome := FlushAnd(sink, env, StallError);
      return Answer(outcome), clock, got;
    }
    var wait := Wait(env, idle);
    var now := before.now + r.gap;
    match r.event {
      case Silence(extra) =>
        return KeepGoing, before.(now := now + wait + extra), got;
      case Eof =>
        return LeaveLoop, clock, got;
      case Failure =>
        var outcome := FlushAnd(sink, env, if TargetReached(sink.View()) then Exhausted(sink.offset) else StreamError);
        return Answer(outcome), clock, got;
      case Data(chunk, took, _, _, _) =>
        if chunk == [] {
          return KeepGoing, before.(now := now + took + wait), got;
        }
        got := chunk;
        turn, clock := WriteAndCredit(sink, env, before, now + took, r.event);
    }
  }

  /** A chunk that arrived: it is written, credited and paid for. */
  method WriteAndCredit(sink: BodySink, env: Env, before: Clock, now: nat, e: Event)
    returns (turn: Turn, clock: Clock)
    requires e.Data?
    modifies sink
    ensures forall taken ::
              TakeChunk(env, LoopOf(old(sink.View()), before, taken), now, e) ==
              match turn
              case KeepGoing => Again(LoopOf(sink.View(), clock, taken + e.chunk))
              case LeaveLoop => Break(LoopOf(sink.View(), clock, taken + e.chunk))
              case Answer(outcome) => Return(LoopOf(sink.View(), clock, taken + e.chunk), outcome)
  {
    clock := before.(now := now);
    var written := sink.Write(e.chunk, e.fault);
    if written.DiskFault? {
      return Answer(DiskError), clock;
    }
    if written.Overrun? {
      return Answer(SizeChanged), clock;
    }
    clock := Clock(now, now, before.credited + written.n);
    if !e.acquired {
      var outcome := FlushAnd(sink, env, Stopped(if e.after == Continue then Paused else e.after));
      return Answer(outcome), clock;
    }
    turn := if written.n == 0 || written.n < |e.chunk| then LeaveLoop else KeepGoing;
  }

  datatype Clock = Clock(now: nat, lastByte: nat, credited: nat)

  function LoopOf(sink: Sink, c: Clock, taken: seq<Byte>): Loop { Loop(sink, c.now, c.lastByte, c.credited, taken) }

  /** `stream_body_loop`, over any number of rounds of any behaviour of the stream,
      the control flag, the limiter, the clock and the disk. */
  method StreamBodyLoop(sink: BodySink, env: Env, rounds: seq<Round>)
    returns (outcome: Outcome, credited: nat, ghost taken: seq<Byte>)
    modifies sink
    ensures var end := Run(env, Begin(old(sink.View())), rounds);
            && end.Return? && end.outcome == outcome
            && end.l.sink == sink.View() && end.l.credited == credited && end.l.taken == taken
  {
    var clock := Clock(0, 0, 0);
    taken := [];
    ghost var all := Run(env, Begin(sink.View()), rounds);
    var i := 0;
    var turn := KeepGoing;
    assert rounds[0..] == rounds;
    while i < |rounds| && turn.KeepGoing?
      invariant 0 <= i <= |rounds|
      invariant match turn
                case KeepGoing => all == Run(env, LoopOf(sink.View(), clock, taken), rounds[i..])
                case LeaveLoop => all == Finish(env, LoopOf(sink.View(), clock, taken))
                case Answer(answer) => all == Return(LoopOf(sink.View(), clock, taken), answer)
    {
      assert rounds[i..][1..] == rounds[i + 1..];
      ghost var got;
      turn, clock, got := PollOnce(sink, env, clock, rounds[i]);
      taken := taken + got;
      i := i + 1;
    }
    credited := clock.credited;
    match turn {
      case KeepGoing => outcome := Running;
      case Answer(answer) => outcome := answer;
      case LeaveLoop =>
        if env.lastControl != Continue {
          outcome := FlushAnd(sink, env, Stopped(env.lastControl));
        } else {
          var target := TargetOf(sink.View());
          outcome := FlushAnd(sink, env,
                              if target.Some? && sink.offset < target.value then Incomplete
                              else if env.policy == UnknownLength then LengthlessEof
                              else Exhausted(sink.offset));
        }
    }
  }

  method FlushAnd(sink: BodySink, env: Env, outcome: Outcome) returns (r: Outcome)
    modifies sink`file, sink`pending
    ensures sink.View() == if env.flushFails then old(sink.View()) else Flushed(old(sink.View()))
    ensures r == if env.flushFails then DiskError else outcome
  {
    if env.flushFails {
      return DiskError;
    }
    sink.FlushBuffer();
    return outcome;
  }

  // ----- What was streamed

  /** The part of the delivered bytes that fits before the target. */
  function Fitting(target: Option<nat>, offset: nat, taken: seq<Byte>): seq<Byte> {
    if target.None? || |taken| <= Room(target.value, offset) then taken else taken[..Room(target.value, offset)]
  }

  ghost predicate FileSink(s: Sink) { s.kind.Append? || s.kind.Positioned? }

  /** The sink as it was opened: nothing buffered, the offset not past the target. The file may be
      shorter than the offset. */
  ghost predicate Opened(s: Sink) {
    FileSink(s) && s.pending == [] && (TargetOf(s).Some? ==> s.offset <= TargetOf(s).value)
  }

  /** `kept` is in the file or buffered right behind it. */
  ghost predicate Holds(start: Sink, s: Sink, kept: seq<Byte>) {
    && s.kind == start.kind
    && s.offset == start.offset + |kept|
    && |s.pending| <= |kept|
    && s.file == PutBytes(start.file, start.offset, kept[..|kept| - |s.pending|])
    && s.pending == kept[|kept| - |s.pending|..]
  }

  /** All that was taken and fits is stored. */
  ghost predicate Stored(start: Sink, s: Sink, taken: seq<Byte>) {
    Holds(start, s, Fitting(TargetOf(start), start.offset, taken))
  }

  /** What every round keeps. The loop goes on only while all that was taken fits. */
  ghost predicate LoopOk(start: Sink, l: Loop) {
    && Fitting(TargetOf(start), start.offset, l.taken) == l.taken
    && Holds(start, l.sink, l.taken)
    && (start.kind.Positioned? ==> l.sink.pending == [])
    && l.credited == |l.taken|
    && l.lastByte <= l.now
  }

  /** What holds after the loop was left: everything that fits is stored and credited. */
  ghost predicate LeftOk(start: Sink, l: Loop) {
    Stored(start, l.sink, l.taken) && l.credited == l.sink.offset - start.offset
  }

  lemma FlushHolds(start: Sink, s: Sink, kept: seq<Byte>)
    requires Holds(start, s, kept)
    ensures Holds(start, Flushed(s), kept) && Flushed(s).pending == []
    ensures Flushed(s).file == PutBytes(start.file, start.offset, kept)
  {
    if s.pending == [] {
      assert kept[..|kept|] == kept;
    } else {
      FlushPending(start, s, kept);
    }
  }

  lemma FlushPending(start: Sink, s: Sink, kept: seq<Byte>)
    requires Holds(start, s, kept) && s.pending != []
    ensures Holds(start, Flushed(s), kept) && Flushed(s).pending == []
    ensures Flushed(s).file == PutBytes(start.file, start.offset, kept)
  {
    var cut := |kept| - |s.pending|;
    FileAfterFlush(start.file, start.offset, s.file, s.pending, kept, cut);
    assert Flushed(s) == Sink(s.kind, PutBytes(s.file, start.offset + cut, s.pending), [], s.offset);
    AllHolds(start, Flushed(s), kept);
  }

  lemma FileAfterFlush(before: seq<Byte>, offset: nat, file: seq<Byte>, pending: seq<Byte>, kept: seq<Byte>, cut: nat)
    requires cut <= |kept|
    requires file == PutBytes(before, offset, kept[..cut]) && pending == kept[cut..]
    ensures PutBytes(file, offset + cut, pending) == PutBytes(before, offset, kept)
  {
    PutSplit(before, offset, kept, cut);
  }

  lemma AllHolds(start: Sink, s: Sink, kept: seq<Byte>)
    requires s.kind == start.kind && s.offset == start.offset + |kept| && s.pending == []
    requires s.file == PutBytes(start.file, start.offset, kept)
    ensures Holds(start, s, kept)
  {
    assert kept[..|kept|] == kept && kept[|kept|..] == [];
  }

  lemma BufferHolds(start: Sink, s: Sink, kept: seq<Byte>, data: seq<Byte>)
    requires Holds(start, s, kept)
    ensures Holds(start, Buffer(s, data), kept + data)
  {
    var cut := |kept| - |s.pending|;
    assert (kept + data)[..cut] == kept[..cut];
    assert (kept + data)[cut..] == kept[cut..] + data;
  }

  lemma PutHolds(start: Sink, s: Sink, kept: seq<Byte>, data: seq<Byte>)
    requires Holds(start, s, kept) && s.pending == []
    ensures Holds(start, s.(file := PutBytes(s.file, s.offset, data), offset := s.offset + |data|), kept + data)
  {
    assert kept[..|kept|] == kept;
    PutsConcat(start.file, start.offset, kept, data);
    AllHolds(start, s.(file := PutBytes(s.file, s.offset, data), offset := s.offset + |data|), kept + data);
  }

  /** With `n` bytes of the chunk fitting, those are what fits of all. */
  lemma FittingMore(target: Option<nat>, at: nat, taken: seq<Byte>, chunk: seq<Byte>, n: nat)
    requires Fitting(target, at, taken) == taken && n <= |chunk|
    requires target.None? ==> n == |chunk|
    requires target.Some? ==> at + |taken| + n <= target.value && (n < |chunk| ==> at + |taken| + n == target.value)
    ensures Fitting(target, at, taken + chunk) == taken + chunk[..n]
  {
    assert (taken + chunk)[..|taken| + n] == taken + chunk[..n];
    assert n == |chunk| ==> chunk[..n] == chunk;
  }

  /** A chunk leaves the sink holding all that fits, whether it was taken whole, cut or refused. */
  lemma ChunkStores(start: Sink, l: Loop, chunk: seq<Byte>, fault: bool)
    requires Opened(start) && LoopOk(start, l) && chunk != []
    ensures var (s, r) := WriteChunk(l.sink, chunk, fault);
            && (r.Wrote? ==> Stored(start, s, l.taken + chunk) && s.offset == l.sink.offset + r.n)
            && (r.Wrote? && r.n == |chunk| ==>
                  Fitting(TargetOf(start), start.offset, l.taken + chunk) == l.taken + chunk
                  && (start.kind.Positioned? ==> s.pending == []))
            && (r.Overrun? ==> Stored(start, s, l.taken + chunk) && s.pending == [] && l.sink.offset <= s.offset)
  {
    if start.kind.Append? {
      ChunkAppended(start, l, chunk, fault);
    } else if !fault && l.sink.offset <= start.kind.last {
      ChunkPut(start, l, chunk);
    }
  }

  lemma ChunkAppended(start: Sink, l: Loop, chunk: seq<Byte>, fault: bool)
    requires Opened(start) && LoopOk(start, l) && chunk != [] && start.kind.Append?
    ensures var (s, r) := WriteChunk(l.sink, chunk, fault);
            && (r.Wrote? ==> r.n == |chunk| && s.offset == l.sink.offset + |chunk|)
            && (r.Wrote? ==> Stored(start, s, l.taken + chunk))
            && (r.Wrote? ==> Fitting(TargetOf(start), start.offset, l.taken + chunk) == l.taken + chunk)
            && (r.Overrun? ==> Stored(start, s, l.taken + chunk) && s.pending == [] && l.sink.offset <= s.offset)
  {
    var room := if start.kind.target.None? then |chunk| else Room(start.kind.target.value, l.sink.offset);
    if |chunk| <= room {
      BufferHolds(start, l.sink, l.taken, chunk);
      FittingMore(TargetOf(start), start.offset, l.taken, chunk, |chunk|);
      assert chunk[..|chunk|] == chunk;
    } else {
      BufferHolds(start, l.sink, l.taken, chunk[..room]);
      FlushHolds(start, Buffer(l.sink, chunk[..room]), l.taken + chunk[..room]);
      FittingMore(TargetOf(start), start.offset, l.taken, chunk, room);
    }
  }

  lemma ChunkPut(start: Sink, l: Loop, chunk: seq<Byte>)
    requires Opened(start) && LoopOk(start, l) && chunk != []
    requires start.kind.Positioned? && l.sink.offset <= start.kind.last
    ensures var (s, r) := WriteChunk(l.sink, chunk, false);
            && r.Wrote? && s.offset == l.sink.offset + r.n && s.pending == []
            && Stored(start, s, l.taken + chunk)
            && (r.n == |chunk| ==> Fitting(TargetOf(start), start.offset, l.taken + chunk) == l.taken + chunk)
  {
    var kept := Capped(chunk, l.sink.offset, start.kind.last);
    CappedIsFront(chunk, l.sink.offset, start.kind.last);
    PositionedWrite(l.sink, chunk, kept);
    PutHolds(start, l.sink, l.taken, kept);
    PutFits(start, l, chunk, kept);
  }

  lemma PositionedWrite(s: Sink, chunk: seq<Byte>, kept: seq<Byte>)
    requires s.kind.Positioned? && s.offset <= s.kind.last && chunk != []
    requires kept == Capped(chunk, s.offset, s.kind.last)
    ensures WriteChunk(s, chunk, false) ==
            (s.(file := PutBytes(s.file, s.offset, kept), offset := s.offset + |kept|), Wrote(|kept|))
  {
  }

  lemma PutFits(start: Sink, l: Loop, chunk: seq<Byte>, kept: seq<Byte>)
    requires LoopOk(start, l) && start.kind.Positioned? && kept <= chunk
    requires l.sink.offset + |kept| <= start.kind.last + 1
    requires |kept| < |chunk| ==> l.sink.offset + |kept| == start.kind.last + 1
    ensures Fitting(TargetOf(start), start.offset, l.taken + chunk) == l.taken + kept
    ensures |kept| == |chunk| ==> kept == chunk
  {
    FittingMore(TargetOf(start), start.offset, l.taken, chunk, |kept|);
  }

  /** What a caller may rely on when the loop returns. */
  ghost predicate ReturnOk(start: Sink, l: Loop, outcome: Outcome) {
    match outcome
    case Running => LoopOk(start, l)
    case DiskError => true
    case _ =>
      && Stored(start, l.sink, l.taken) && l.sink.pending == []
      && (outcome == SizeChanged ==> l.credited <= l.sink.offset - start.offset)
      && (outcome != SizeChanged ==> l.credited == l.sink.offset - start.offset)
      && (outcome.Exhausted? ==> outcome.downloaded == l.sink.offset
                                 && (TargetOf(start).Some? ==> l.sink.offset == TargetOf(start).value))
  }

  ghost predicate TurnOk(start: Sink, turn: Next) {
    match turn
    case Again(t) => LoopOk(start, t)
    case Break(t) => LeftOk(start, t)
    case Return(t, outcome) => ReturnOk(start, t, outcome) && outcome != Running
  }

  lemma FlushThenOk(env: Env, start: Sink, l: Loop, outcome: Outcome)
    requires Opened(start) && LeftOk(start, l) && outcome != Running
    requires outcome.Exhausted? ==>
               outcome.downloaded == l.sink.offset && (TargetOf(start).Some? ==> l.sink.offset >= TargetOf(start).value)
    ensures FlushThen(env, l, outcome).Return?
    ensures var r := FlushThen(env, l, outcome);
            ReturnOk(start, r.l, r.outcome) && r.l.taken == l.taken && r.outcome in {DiskError, outcome}
  {
    FlushHolds(start, l.sink, Fitting(TargetOf(start), start.offset, l.taken));
  }

  lemma TakeChunkOk(env: Env, start: Sink, l: Loop, now: nat, e: Event)
    requires Opened(start) && LoopOk(start, l) && e.Data? && e.chunk != []
    ensures TurnOk(start, TakeChunk(env, l, now, e))
    ensures TakeChunk(env, l, now, e).Again? ==> TakeChunk(env, l, now, e).l.sink.offset > l.sink.offset
  {
    ChunkStores(start, l, e.chunk, e.fault);
    var (s, r) := WriteChunk(l.sink, e.chunk, e.fault);
    if r.Wrote? && !e.acquired {
      var c := l.(sink := s, now := now, taken := l.taken + e.chunk, lastByte := now, credited := l.credited + r.n);
      FlushThenOk(env, start, c, Stopped(if e.after == Continue then Paused else e.after));
    }
  }

  lemma LoopCanBeLeft(start: Sink, l: Loop)
    requires LoopOk(start, l)
    ensures LeftOk(start, l)
    ensures TargetReached(l.sink) ==> TargetOf(start).None? || l.sink.offset >= TargetOf(start).value
  {
  }

  lemma EarlyReturnOk(env: Env, start: Sink, l: Loop, r: Round)
    requires Opened(start) && LoopOk(start, l)
    requires r.control != Continue || Idle(l, r) >= env.stall || r.event.Failure?
    ensures TurnOk(start, Step(env, l, r))
  {
    LoopCanBeLeft(start, l);
    FlushThenOk(env, start, l, if r.control != Continue then Stopped(r.control)
                               else if Idle(l, r) >= env.stall then StallError
                               else if TargetReached(l.sink) then Exhausted(l.sink.offset)
                               else StreamError);
  }

  /** A round that brings no byte: silence, an empty chunk, or the end of the stream. */
  predicate Quiet(env: Env, l: Loop, r: Round) {
    && r.control == Continue && Idle(l, r) < env.stall
    && (r.event.Silence? || r.event.Eof? || (r.event.Data? && r.event.chunk == []))
  }

  lemma QuietRoundOk(env: Env, start: Sink, l: Loop, r: Round)
    requires LoopOk(start, l) && Quiet(env, l, r)
    ensures TurnOk(start, Step(env, l, r))
    ensures match Step(env, l, r)
            case Again(t) =>
              LoopOk(start, t) && t.sink == l.sink && t.lastByte == l.lastByte && t.now >= l.now + Wait(env, Idle(l, r))
            case Break(t) => t == l
            case Return(_, _) => false
  {
    LoopCanBeLeft(start, l);
  }

  predicate BringsBytes(env: Env, l: Loop, r: Round) {
    r.control == Continue && Idle(l, r) < env.stall && r.event.Data? && r.event.chunk != []
  }

  lemma ChunkRound(env: Env, l: Loop, r: Round)
    requires BringsBytes(env, l, r)
    ensures Step(env, l, r) == TakeChunk(env, l, l.now + r.gap + r.event.took, r.event)
  {
  }

  lemma ChunkRoundOk(env: Env, start: Sink, l: Loop, r: Round)
    requires Opened(start) && LoopOk(start, l) && BringsBytes(env, l, r)
    ensures TurnOk(start, Step(env, l, r))
  {
    ChunkRound(env, l, r);
    TakeChunkOk(env, start, l, l.now + r.gap + r.event.took, r.event);
  }

  lemma StepOk(env: Env, start: Sink, l: Loop, r: Round)
    requires Opened(start) && LoopOk(start, l)
    ensures TurnOk(start, Step(env, l, r))
  {
    if r.control != Continue || Idle(l, r) >= env.stall || r.event.Failure? {
      EarlyReturnOk(env, start, l, r);
    } else if r.event.Data? && r.event.chunk != [] {
      ChunkRoundOk(env, start, l, r);
    } else {
      QuietRoundOk(env, start, l, r);
    }
  }

  lemma FinishOk(env: Env, start: Sink, l: Loop)
    requires Opened(start) && LeftOk(start, l)
    ensures Finish(env, l).Return? && ReturnOk(start, Finish(env, l).l, Finish(env, l).outcome)
    ensures Finish(env, l).outcome != Running
    ensures Finish(env, l).outcome.Exhausted? ==> env.policy == Complete
  {
    if env.lastControl != Continue {
      FlushThenOk(env, start, l, Stopped(env.lastControl));
    } else if TargetOf(l.sink).Some? && l.sink.offset < TargetOf(l.sink).value {
      FlushThenOk(env, start, l, Incomplete);
    } else if env.policy == UnknownLength {
      FlushThenOk(env, start, l, LengthlessEof);
    } else {
      FlushThenOk(env, start, l, Exhausted(l.sink.offset));
    }
  }

  lemma {:induction false} RunOk(env: Env, start: Sink, l: Loop, rounds: seq<Round>)
    requires Opened(start) && LoopOk(start, l)
    ensures Run(env, l, rounds).Return? && ReturnOk(start, Run(env, l, rounds).l, Run(env, l, rounds).outcome)
    ensures Run(env, l, rounds).outcome.Exhausted? && TargetOf(start).None? ==> env.policy == Complete
    decreases |rounds|
  {
    if rounds != [] {
      StepOk(env, start, l, rounds[0]);
      match Step(env, l, rounds[0])
      case Again(t) => RunOk(env, start, t, rounds[1..]);
      case Break(t) => FinishOk(env, start, t);
      case Return(t, outcome) =>
    }
  }

  lemma BeginOk(start: Sink)
    requires Opened(start)
    ensures LoopOk(start, Begin(start))
  {
    AllHolds(start, start, []);
  }

  // ----- Main results

  /** Streaming correctness: whatever the stream, the control flag, the limiter
      and the clock do, on every return without a disk error the file is the
      original with the delivered bytes put at the starting offset, cut at the
      target; nothing dequeued is lost to a pause or a cancel; and the credits
      are the growth of the offset, short of it only after an overrun. */
  lemma StreamIsStored(env: Env, start: Sink, rounds: seq<Round>)
    requires Opened(start)
    ensures var end := Run(env, Begin(start), rounds);
            end.Return? && (end.outcome != Running && end.outcome != DiskError ==>
                              var kept := Fitting(TargetOf(start), start.offset, end.l.taken);
                              && end.l.sink.file == PutBytes(start.file, start.offset, kept)
                              && end.l.sink.pending == []
                              && end.l.sink.offset == start.offset + |kept|
                              && (TargetOf(start).Some? ==> end.l.sink.offset <= TargetOf(start).value)
                              && (end.outcome != SizeChanged ==> end.l.credited == |kept|)
                              && (end.outcome == SizeChanged ==> end.l.credited <= |kept|))
  {
    BeginOk(start);
    RunOk(env, start, Begin(start), rounds);
    var end := Run(env, Begin(start), rounds);
    if end.l.sink.pending == [] && end.outcome != Running && end.outcome != DiskError {
      FlushedHolds(start, end.l.sink, Fitting(TargetOf(start), start.offset, end.l.taken));
    }
  }

  lemma FlushedHolds(start: Sink, s: Sink, kept: seq<Byte>)
    requires Holds(start, s, kept) && s.pending == []
    ensures s.file == PutBytes(start.file, start.offset, kept)
  {
    assert kept[..|kept|] == kept;
  }

  /** A finished body: its length is the target when one is known, and a bare
      HTTP/1 close without length, target or terminator never counts as finished. */
  lemma ExhaustedMeansComplete(env: Env, start: Sink, rounds: seq<Round>, version: Version, length: Option<nat>,
                               chunked: bool)
    requires Opened(start) && env.policy == EosPolicy(version, length, chunked, TargetOf(start))
    ensures var end := Run(env, Begin(start), rounds);
            end.Return? && (end.outcome.Exhausted? ==>
                              && end.outcome.downloaded == end.l.sink.offset
                              && (TargetOf(start).Some? ==> end.outcome.downloaded == TargetOf(start).value)
                              && !(version == Http1 && length.None? && !chunked && TargetOf(start).None?))
  {
    BeginOk(start);
    RunOk(env, start, Begin(start), rounds);
  }

  /** How many more rounds a sink with a target can go through. */
  function RoundsLeft(env: Env, l: Loop, target: nat): nat {
    Room(target, l.sink.offset) * (env.stall + 1) + Room(env.stall, Room(l.now, l.lastByte))
  }

  lemma FewerBytesFewerRounds(before: nat, after: nat, stall: nat, idle: nat)
    requires after < before && idle <= stall
    ensures after * (stall + 1) + idle < before * (stall + 1)
  {
    assert (after + 1) * (stall + 1) <= before * (stall + 1);
    assert (after + 1) * (stall + 1) == after * (stall + 1) + stall + 1;
  }

  lemma AgainUsesUpRounds(env: Env, start: Sink, l: Loop, r: Round)
    requires Opened(start) && LoopOk(start, l) && TargetOf(start).Some? && Step(env, l, r).Again?
    ensures RoundsLeft(env, Step(env, l, r).l, TargetOf(start).value) < RoundsLeft(env, l, TargetOf(start).value)
  {
    var t := Step(env, l, r).l;
    var target := TargetOf(start).value;
    if BringsBytes(env, l, r) {
      ChunkRound(env, l, r);
      TakeChunkOk(env, start, l, l.now + r.gap + r.event.took, r.event);
      FewerBytesFewerRounds(Room(target, l.sink.offset), Room(target, t.sink.offset), env.stall,
                            Room(env.stall, Room(t.now, t.lastByte)));
    } else {
      assert Quiet(env, l, r);
      QuietRoundOk(env, start, l, r);
    }
  }

  /** Stream termination: with a known target no stream, be it silent, endless or
      made of empty chunks, keeps the loop going past a bound fixed at the start. */
  lemma {:induction false} LoopEnds(env: Env, start: Sink, l: Loop, rounds: seq<Round>)
    requires Opened(start) && LoopOk(start, l) && TargetOf(start).Some?
    requires |rounds| > RoundsLeft(env, l, TargetOf(start).value)
    ensures Run(env, l, rounds).Return? && Run(env, l, rounds).outcome != Running
    decreases |rounds|
  {
    StepOk(env, start, l, rounds[0]);
    match Step(env, l, rounds[0])
    case Again(t) =>
      AgainUsesUpRounds(env, start, l, rounds[0]);
      LoopEnds(env, start, t, rounds[1..]);
    case Break(t) => FinishOk(env, start, t);
    case Return(_, _) =>
  }

  // ----- The counting sink

  ghost predicate CountOk(start: Sink, l: Loop)
    requires start.kind.Counting?
  {
    && l.sink == start.(offset := |l.taken|)
    && l.credited == |l.taken|
    && (start.kind.limit.Some? ==> |l.taken| <= start.kind.limit.value)
  }

  /** A counting sink reports the length of a finished body, refuses a body past
      its limit one byte after the limit, and never touches the file. */
  lemma {:induction false} CountingIsExact(env: Env, start: Sink, l: Loop, rounds: seq<Round>)
    requires start.kind.Counting? && start.pending == [] && CountOk(start, l)
    ensures var end := Run(env, l, rounds);
            && end.Return? && end.l.sink.file == start.file
            && (end.outcome.Exhausted? ==>
                  end.outcome.downloaded == |end.l.taken| == end.l.credited
                  && (start.kind.limit.Some? ==> |end.l.taken| <= start.kind.limit.value))
            && (end.outcome == SizeChanged ==>
                  start.kind.limit.Some? && end.l.sink.offset == start.kind.limit.value + 1 <= |end.l.taken|)
    decreases |rounds|
  {
    if rounds != [] {
      CountingRound(env, start, l, rounds[0]);
      match Step(env, l, rounds[0])
      case Again(t) => CountingIsExact(env, start, t, rounds[1..]);
      case Break(_) =>
      case Return(_, _) =>
    }
  }

  lemma CountingRound(env: Env, start: Sink, l: Loop, r: Round)
    requires start.kind.Counting? && start.pending == [] && CountOk(start, l)
    ensures match Step(env, l, r)
            case Again(t) => CountOk(start, t)
            case Break(t) => CountOk(start, t)
            case Return(t, outcome) =>
              && t.sink.file == start.file
              && !outcome.Exhausted?
              && (outcome == SizeChanged ==>
                    start.kind.limit.Some? && t.sink.offset == start.kind.limit.value + 1 <= |t.taken|)
  {
  }
}
