/** One client on Hyprland's socket against the clock: calls that may take any time their deadline
    allows, be lost, go unanswered or answer anything, and the dispatch of one command over them. Times
    are in nanoseconds; only the time spent between calls is taken to be nothing. */
module ShowCalls {
  import opened HyprlandIpc
  import opened ShowWorkspaces
  import opened Wrappers

  // ----- The socket

  datatype Selector = ByAddress(address: nat) | ByClass

  datatype Command =
    | ListClients
    | ListMonitors
    | ActiveWorkspace
    | Move(target: string, selector: Selector)
    | Focus(selector: Selector)

  datatype Delivery = Lost | Silent | Answered

  /** What the environment does to one call, and what its answer would say: to a command in Lua and in
      legacy form, and to a query. A reply that does not parse as the wanted list or object is `None`. */
  datatype Fate = Fate(
    connect: nat, wait: nat, delivery: Delivery, lua: DispatchReply, legacy: DispatchReply,
    clients: Option<seq<Client>>, monitors: Option<seq<Monitor>>, active: Option<Workspace>)

  /** A command that was written: the call it belongs to, when, and what came back. */
  datatype Sent = Sent(call: nat, command: Command, legacy: bool, at: nat, answer: IpcResult)

  datatype Session = Session(now: nat, calls: nat, dialect: Dialect, legacyRules: bool, log: seq<Sent>)

  predicate KnownLegacy(s: Session) { s.dialect == DialectLegacy || s.legacyRules }

  function Min(a: nat, b: nat): nat { if a < b then a else b }

  function Max(a: nat, b: nat): nat { if a < b then b else a }

  /** One call: connecting, writing and reading all stop at the deadline. */
  function Call(env: nat -> Fate, s: Session, c: Command, legacy: bool, deadline: nat): (r: (IpcResult, Session)) {
    var f := env(s.calls);
    var at := s.now + f.connect;
    var next := s.(calls := s.calls + 1);
    if s.now >= deadline then (NotSent, next)
    else if f.delivery == Lost || at >= deadline then (NotSent, next.(now := Min(at, deadline)))
    else
      var reply := if legacy then f.legacy else f.lua;
      var answer := if f.delivery == Answered && at + f.wait <= deadline then Reply(reply) else NoReply;
      (answer, next.(now := Min(at + f.wait, deadline), log := s.log + [Sent(s.calls, c, legacy, at, answer)]))
  }

  /** How a call ends, and when: it is answered exactly when it connects and its reply is in by the deadline, it
      is written exactly when it connects before it, and it never lasts longer. */
  lemma CallEnds(env: nat -> Fate, s: Session, c: Command, legacy: bool, deadline: nat)
    ensures var (r, t) := Call(env, s, c, legacy, deadline); var f := env(s.calls);
            && (r.Reply? <==> f.delivery == Answered && s.now + f.connect < deadline
                              && s.now + f.connect + f.wait <= deadline)
            && (r.NotSent? <==> f.delivery == Lost || s.now + f.connect >= deadline)
            && (r.Reply? ==> t.now == s.now + f.connect + f.wait)
            && s.now <= t.now && (s.now <= deadline ==> t.now <= deadline)
            && (r.NotSent? ==> t.log == s.log)
            && (!r.NotSent? ==> t.log[..|s.log|] == s.log && t.log[|s.log|].legacy == legacy)
  {
  }

  predicate NoTimeLeft(s: Session, deadline: nat) { s.now >= deadline }

  /** From `s` to `t` time went on, at most up to the deadline, and what was written was written before it. */
  ghost predicate Within(s: Session, t: Session, deadline: nat) {
    && s.now <= t.now <= Max(s.now, deadline)
    && s.calls <= t.calls
    && t.legacyRules == s.legacyRules
    && s.log <= t.log
    && (forall i :: |s.log| <= i < |t.log| ==>
          s.now <= t.log[i].at < deadline && s.calls <= t.log[i].call < t.calls)
  }

  /** Between `s` and `t` only commands of this kind were written. */
  ghost predicate Only(s: Session, t: Session, kind: Command -> bool) {
    |s.log| <= |t.log| && forall i :: |s.log| <= i < |t.log| ==> kind(t.log[i].command)
  }

  ghost predicate OnlyThis(s: Session, t: Session, c: Command) {
    |s.log| <= |t.log| && forall i :: |s.log| <= i < |t.log| ==> t.log[i].command == c
  }

  predicate IsMoveTo(c: Command, target: string) { c.Move? && c.target == target }

  ghost predicate OnlyMovesTo(s: Session, t: Session, target: string) {
    |s.log| <= |t.log| && forall i :: |s.log| <= i < |t.log| ==> IsMoveTo(t.log[i].command, target)
  }

  lemma WithinTrans(s: Session, t: Session, u: Session, d: nat, e: nat)
    requires Within(s, t, d) && Within(t, u, e) && d <= e
    ensures Within(s, u, e)
  {
    forall i | |s.log| <= i < |u.log|
      ensures s.now <= u.log[i].at < e && s.calls <= u.log[i].call < u.calls
    {
      if i < |t.log| {
        assert u.log[i] == t.log[i];
      }
    }
  }

  lemma OnlyTrans(s: Session, t: Session, u: Session, kind: Command -> bool)
    requires Only(s, t, kind) && Only(t, u, kind) && t.log <= u.log
    ensures Only(s, u, kind)
  {
    forall i | |s.log| <= i < |u.log| ensures kind(u.log[i].command) {
      if i < |t.log| {
        assert u.log[i] == t.log[i];
      }
    }
  }

  lemma OnlyThisTrans(s: Session, t: Session, u: Session, c: Command)
    requires OnlyThis(s, t, c) && OnlyThis(t, u, c) && t.log <= u.log
    ensures OnlyThis(s, u, c)
  {
    forall i | |s.log| <= i < |u.log| ensures u.log[i].command == c {
      if i < |t.log| {
        assert u.log[i] == t.log[i];
      }
    }
  }

  lemma OnlyMovesTrans(s: Session, t: Session, u: Session, target: string)
    requires OnlyMovesTo(s, t, target) && OnlyMovesTo(t, u, target) && t.log <= u.log
    ensures OnlyMovesTo(s, u, target)
  {
    forall i | |s.log| <= i < |u.log| ensures IsMoveTo(u.log[i].command, target) {
      if i < |t.log| {
        assert u.log[i] == t.log[i];
      }
    }
  }

  // ----- Dispatching

  predicate Accepted(e: Sent) { e.answer == Reply(Ok) }

  /** Some command of this kind written between `s` and `t` was answered `ok`. */
  ghost predicate AcceptedSince(s: Session, t: Session, c: Command) {
    exists i :: |s.log| <= i < |t.log| && t.log[i].command == c && Accepted(t.log[i])
  }

  ghost predicate Dispatched(s: Session, t: Session, c: Command, deadline: nat, outcome: MoveOutcome) {
    && Within(s, t, deadline)
    && OnlyThis(s, t, c)
    && (outcome == OutAccepted <==> AcceptedSince(s, t, c))
  }

  /** The next call gets its connection in time and is not lost, so its command is written. */
  ghost predicate Reaches(env: nat -> Fate, s: Session, deadline: nat) {
    env(s.calls).delivery != Lost && s.now + env(s.calls).connect < deadline
  }

  /** One call: what it writes, and whether it was accepted. */
  lemma CallWithin(env: nat -> Fate, s: Session, c: Command, legacy: bool, deadline: nat)
    ensures var (r, t) := Call(env, s, c, legacy, deadline);
            && Dispatched(s, t, c, deadline, OutcomeOf(r)) && t.dialect == s.dialect
            && t.calls == s.calls + 1
            && |t.log| == |s.log| + (if r.NotSent? then 0 else 1)
            && (!r.NotSent? ==> t.log[|s.log|].call == s.calls && t.log[|s.log|].answer == r)
            && (r.Reply? ==> t.now <= deadline)
            && (Reaches(env, s, deadline) ==> !r.NotSent?)
  {
    var (r, t) := Call(env, s, c, legacy, deadline);
    assert OutcomeOf(r) == OutAccepted ==> t.log[|s.log|].command == c && Accepted(t.log[|s.log|]);
  }

  predicate Answers(f: Fate, d: nat) { f.delivery == Answered && f.connect + f.wait <= d }

  /** From now on every call is answered within `d`, and commands with `ok` when they come in the one form
      the compositor speaks: always legacy, or always Lua with a client that does not take it for legacy. */
  ghost predicate Quick(env: nat -> Fate, s: Session, d: nat) {
    && (forall k :: s.calls <= k ==> Answers(env(k), d))
    && ((forall k :: s.calls <= k ==> env(k).legacy == Ok)
        || (!KnownLegacy(s) && forall k :: s.calls <= k ==> env(k).lua == Ok))
  }

  lemma QuickCall(env: nat -> Fate, s: Session, c: Command, legacy: bool, deadline: nat, d: nat)
    requires Answers(env(s.calls), d) && s.now + d < deadline
    ensures var (r, t) := Call(env, s, c, legacy, deadline);
            r == Reply(if legacy then env(s.calls).legacy else env(s.calls).lua) && t.now <= s.now + d
  {
  }

  /** The answer a dispatch owes: that of its first call, or after a rejected Lua form that of the legacy
      call that must follow, where a call never written leaves the rejection standing. The dialect that
      worked is remembered. */
  ghost predicate RightAnswer(env: nat -> Fate, s: Session, t: Session, c: Command, deadline: nat,
                              outcome: MoveOutcome)
  {
    var legacy := s.dialect == DialectLegacy || s.legacyRules;
    var first := Call(env, s, c, legacy, deadline);
    if !legacy && first.0.Reply? && first.0.reply != Ok then
      var second := Call(env, first.1, c, true, deadline);
      && t == second.1.(dialect := if outcome == OutAccepted then DialectLegacy else s.dialect)
      && match second.0
         case NotSent => outcome == OutRefused
         case NoReply => outcome == OutUnanswered
         case Reply(r) => outcome == if r == Ok then OutAccepted else OutRefused
    else
      && outcome == OutcomeOf(first.0)
      && t == first.1.(dialect := if outcome != OutAccepted then s.dialect
                                  else if legacy then DialectLegacy else DialectLua)
  }

  /** A dispatch takes two calls at most, so a quick compositor accepts it in twice the time of one. */
  lemma QuickDispatch(env: nat -> Fate, s: Session, t: Session, c: Command, deadline: nat, outcome: MoveOutcome, d: nat)
    requires Quick(env, s, d) && s.now + 2 * d < deadline && RightAnswer(env, s, t, c, deadline, outcome)
    ensures outcome == OutAccepted && t.now <= s.now + 2 * d && Quick(env, t, d)
  {
    var first := Call(env, s, c, KnownLegacy(s), deadline);
    QuickCall(env, s, c, KnownLegacy(s), deadline, d);
    if first.0.reply != Ok {
      assert first.1.calls == s.calls + 1;
      QuickCall(env, first.1, c, true, deadline, d);
    }
  }

  /** Between `s` and `t` this command was dispatched. */
  ghost predicate Tried(env: nat -> Fate, s: Session, t: Session, c: Command, deadline: nat) {
    exists u: Session, v: Session, outcome :: TriedFrom(env, s, t, c, deadline, u, v, outcome)
  }

  /** It was dispatched from `u` to `v`, with this answer. */
  ghost predicate TriedFrom(env: nat -> Fate, s: Session, t: Session, c: Command, deadline: nat, u: Session, v: Session,
                            outcome: MoveOutcome)
  {
    RightAnswer(env, u, v, c, deadline, outcome) && Spans(s, u) && Spans(v, t) && u.legacyRules == s.legacyRules
  }

  ghost predicate Spans(s: Session, t: Session) { s.log <= t.log && s.calls <= t.calls && s.now <= t.now }

  lemma TriedWider(env: nat -> Fate, s: Session, u: Session, v: Session, t: Session, c: Command, deadline: nat)
    requires Tried(env, u, v, c, deadline) && Spans(s, u) && Spans(v, t) && u.legacyRules == s.legacyRules
    ensures Tried(env, s, t, c, deadline)
  {
    var a: Session, b: Session, outcome :| TriedFrom(env, u, v, c, deadline, a, b, outcome);
    assert TriedFrom(env, s, t, c, deadline, a, b, outcome);
  }

  lemma TriedOnce(env: nat -> Fate, s: Session, u: Session, t: Session, c: Command, deadline: nat, outcome: MoveOutcome)
    requires RightAnswer(env, u, t, c, deadline, outcome) && Spans(s, u) && u.legacyRules == s.legacyRules
    ensures Tried(env, s, t, c, deadline)
  {
    assert TriedFrom(env, s, t, c, deadline, u, t, outcome);
  }

  method LegacyCall(env: nat -> Fate, s: Session, c: Command, deadline: nat) returns (outcome: MoveOutcome, t: Session)
    ensures Dispatched(s, t, c, deadline, outcome)
    ensures |t.log| == |s.log| + if outcome == OutNotSent then 0 else 1
    ensures Reaches(env, s, deadline) ==> |t.log| > |s.log| && t.log[|s.log|].call == s.calls < t.calls
    ensures var call := Call(env, s, c, true, deadline);
            && outcome == OutcomeOf(call.0)
            && t == call.1.(dialect := if outcome == OutAccepted then DialectLegacy else s.dialect)
  {
    var call := Call(env, s, c, true, deadline);
    CallWithin(env, s, c, true, deadline);
    outcome := OutcomeOf(call.0);
    t := if outcome == OutAccepted then call.1.(dialect := DialectLegacy) else call.1;
  }

  lemma AfterRefusal(s: Session, u: Session, t: Session, c: Command, deadline: nat, second: MoveOutcome)
    requires Dispatched(s, u, c, deadline, OutRefused) && Dispatched(u, t, c, deadline, second)
    ensures Dispatched(s, t, c, deadline, AfterRefusedLua(second))
  {
    WithinTrans(s, u, t, deadline, deadline);
    OnlyThisTrans(s, u, t, c);
    forall i | |s.log| <= i < |u.log| ensures t.log[i] == u.log[i] && !Accepted(u.log[i]) {
      assert u.log[i].command == c;
      assert Accepted(u.log[i]) ==> AcceptedSince(s, u, c);
    }
    if AcceptedSince(s, t, c) {
      var i :| |s.log| <= i < |t.log| && t.log[i].command == c && Accepted(t.log[i]);
      assert AcceptedSince(u, t, c);
    }
  }

  /** Legacy is tried only after Lua was answered with a rejection. */
  method DispatchMoveThenLegacy(env: nat -> Fate, s: Session, c: Command, deadline: nat)
    returns (outcome: MoveOutcome, t: Session)
    ensures Dispatched(s, t, c, deadline, outcome)
    ensures |t.log| <= |s.log| + 2
    ensures |t.log| == |s.log| + 2 ==> t.log[|s.log|].answer.Reply? && t.log[|s.log|].answer != Reply(Ok)
    ensures outcome == OutNotSent <==> t.log == s.log
    ensures Reaches(env, s, deadline) ==> |t.log| > |s.log| && t.log[|s.log|].call == s.calls < t.calls
    ensures RightAnswer(env, s, t, c, deadline, outcome)
  {
    if KnownLegacy(s) {
      outcome, t := LegacyCall(env, s, c, deadline);
      return;
    }
    var lua := Call(env, s, c, false, deadline);
    CallWithin(env, s, c, false, deadline);
    outcome := OutcomeOf(lua.0);
    t := lua.1;
    if outcome == OutAccepted {
      t := t.(dialect := DialectLua);
    } else if outcome == OutRefused {
      ghost var u := t;
      outcome, t := LegacyCall(env, t, c, deadline);
      AfterRefusal(s, u, t, c, deadline, outcome);
      assert t.log[|s.log|] == u.log[|s.log|];
      outcome := AfterRefusedLua(outcome);
    }
  }

  // ----- One command for each window

  /** What is sent for one window: its move onto `target`, or without one its focus. */
  function CommandFor(target: Option<string>, window: Client): Command {
    if target.Some? then Move(target.value, ByAddress(window.address)) else Focus(ByAddress(window.address))
  }

  ghost predicate AllTried(env: nat -> Fate, s: Session, t: Session, windows: seq<Client>, target: Option<string>,
                           deadline: nat)
  {
    forall i :: 0 <= i < |windows| ==> Tried(env, s, t, CommandFor(target, windows[i]), deadline)
  }

  lemma OneMoreTried(env: nat -> Fate, s: Session, u: Session, t: Session, windows: seq<Client>, i: nat,
                     target: Option<string>, deadline: nat, outcome: MoveOutcome)
    requires i < |windows| && AllTried(env, s, u, windows[..i], target, deadline)
    requires RightAnswer(env, u, t, CommandFor(target, windows[i]), deadline, outcome)
    requires Within(s, u, deadline) && Within(u, t, deadline)
    ensures AllTried(env, s, t, windows[..i + 1], target, deadline)
  {
    var done := windows[..i + 1];
    forall j | 0 <= j < |done| ensures Tried(env, s, t, CommandFor(target, done[j]), deadline) {
      if j < i {
        assert windows[..i][j] == windows[j];
        TriedWider(env, s, s, u, t, CommandFor(target, windows[j]), deadline);
      } else {
        TriedOnce(env, s, u, t, CommandFor(target, windows[i]), deadline, outcome);
      }
    }
  }

  lemma AllTriedWider(env: nat -> Fate, s: Session, u: Session, v: Session, t: Session, windows: seq<Client>,
                      target: Option<string>, deadline: nat)
    requires AllTried(env, u, v, windows, target, deadline)
    requires Spans(s, u) && Spans(v, t) && u.legacyRules == s.legacyRules
    ensures AllTried(env, s, t, windows, target, deadline)
  {
    forall i | 0 <= i < |windows| ensures Tried(env, s, t, CommandFor(target, windows[i]), deadline) {
      TriedWider(env, s, u, v, t, CommandFor(target, windows[i]), deadline);
    }
  }

  /** Time for `n` dispatches, when every call takes `d` at most. */
  function TimeFor(n: nat, d: nat): nat { n * (2 * d) }

  lemma {:induction false} TimeForNext(i: nat, n: nat, d: nat)
    requires i < n
    ensures TimeFor(i, d) + 2 * d == TimeFor(i + 1, d) <= TimeFor(n, d)
    decreases n
  {
    OneMoreTime(i, 2 * d);
    if i + 1 < n {
      OneMoreTime(n - 1, 2 * d);
      TimeForNext(i, n - 1, d);
    }
  }

  lemma OneMoreTime(n: nat, c: nat)
    ensures (n + 1) * c == n * c + c
  {
  }

  function Twice(n: nat): nat { n + n }

  lemma TimeForTwice(n: nat, d: nat)
    ensures TimeFor(Twice(n), d) == TimeFor(n, d) + TimeFor(n, d)
  {
  }

  /** `i` of `n` dispatches are done in time, and the next one will be. */
  lemma QuickNext(env: nat -> Fate, s: Session, u: Session, t: Session, c: Command, deadline: nat, outcome: MoveOutcome,
                  d: nat, i: nat, n: nat)
    requires i < n && s.now + TimeFor(n, d) < deadline
    requires Quick(env, u, d) && u.now <= s.now + TimeFor(i, d)
    requires RightAnswer(env, u, t, c, deadline, outcome)
    ensures outcome == OutAccepted && Quick(env, t, d) && t.now <= s.now + TimeFor(i + 1, d)
  {
    TimeForNext(i, n, d);
    QuickDispatch(env, u, t, c, deadline, outcome, d);
  }
}
