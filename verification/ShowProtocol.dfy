/** Bringing the parked window back within a time budget: what is read, where the windows go, and what
    is moved and focused in which order. */
module ShowProtocol {
  import opened HyprlandIpc
  import opened ShowCalls
  import opened ShowWorkspaces
  import opened Wrappers

  const SHOW_MOVE_RESERVE := 500_000_000
  const ONE_MILLISECOND := 1_000_000
  // ----- Deadlines

  function ShowReserve(budget: nat): nat { Min(SHOW_MOVE_RESERVE, budget / 2) }

  function OverallDeadline(start: nat, budget: nat): nat { start + budget }

  function ShowQueryDeadline(start: nat, budget: nat): nat { start + (budget - ShowReserve(budget)) }

  function DeadlineLeavingRoomForMove(overall: nat, budget: nat): nat {
    var half := ShowReserve(budget) / 2;
    var floor := if half == 0 then ONE_MILLISECOND else half;
    if floor <= overall then overall - floor else overall
  }

  /** Both query deadlines leave half of the reserve for a move. */
  lemma DeadlinesLeaveRoom(start: nat, budget: nat)
    ensures ShowQueryDeadline(start, budget) + ShowReserve(budget) == OverallDeadline(start, budget)
    ensures start <= ShowQueryDeadline(start, budget)
    ensures ShowReserve(budget) <= 500_000_000 && 2 * ShowReserve(budget) <= budget
    ensures ShowReserve(budget) < 500_000_000 ==> budget <= 2 * ShowReserve(budget) + 1
    ensures ShowReserve(budget) >= 2 ==>
              DeadlineLeavingRoomForMove(OverallDeadline(start, budget), budget) ==
              OverallDeadline(start, budget) - ShowReserve(budget) / 2
    ensures ShowReserve(budget) < 2 && OverallDeadline(start, budget) >= 1_000_000 ==>
              DeadlineLeavingRoomForMove(OverallDeadline(start, budget), budget) ==
              OverallDeadline(start, budget) - 1_000_000
    ensures DeadlineLeavingRoomForMove(OverallDeadline(start, budget), budget) + ShowReserve(budget) / 2 <=
            OverallDeadline(start, budget)
  {
  }

  // ----- Reading

  /** The workspace a monitor list names. */
  function Names(f: Fate): Option<string> {
    if f.monitors.Some? then FocusedMonitorWorkspace(f.monitors.value) else None
  }

  /** The answer of `e` named this workspace. */
  ghost predicate LearnedAt(env: nat -> Fate, e: Sent, target: string) {
    && e.answer.Reply?
    && ((e.command == ListMonitors && env(e.call).monitors.Some?
         && FocusedMonitorWorkspace(env(e.call).monitors.value) == Some(target)) ||
        (e.command == ActiveWorkspace && env(e.call).active.Some?
         && WorkspaceTarget(env(e.call).active.value) == Some(target)))
  }

  /** The last call up to `t` is the one that named it. */
  ghost predicate Learned(env: nat -> Fate, s: Session, t: Session, target: string) {
    && |s.log| < |t.log|
    && LearnedAt(env, t.log[|t.log| - 1], target)
    && t.log[|t.log| - 1].call + 1 == t.calls
  }

  predicate ListsMain(f: Fate, pid: nat) { f.clients.Some? && MainWindows(f.clients.value, pid) != [] }

  predicate IsQuery(c: Command) { c.ListClients? || c.ListMonitors? || c.ActiveWorkspace? }

  /** The answers to the queries of `log[from..to]` named no workspace. */
  ghost predicate NamedNothing(env: nat -> Fate, log: seq<Sent>, from: nat, to: nat) {
    to <= |log| && forall i, target :: from <= i < to ==> !LearnedAt(env, log[i], target)
  }

  /** The monitor list is answered in time and names a workspace. */
  predicate AnsweredAtOnce(env: nat -> Fate, s: Session, deadline: nat) {
    && !NoTimeLeft(s, deadline) && Names(env(s.calls)).Some?
    && Call(env, s, ListMonitors, false, deadline).0.Reply?
  }

  function FirstQuery(env: nat -> Fate, s: Session, deadline: nat): Session {
    Call(env, s, ListMonitors, false, deadline).1
  }

  /** The monitors first, then the active workspace; it gives up only when both are in or time is out. */
  method LearnRestoreWorkspace(env: nat -> Fate, s: Session, deadline: nat) returns (target: Option<string>, t: Session)
    ensures Within(s, t, deadline) && Only(s, t, IsQuery) && t.dialect == s.dialect
    ensures target.Some? ==> s.now < deadline && Learned(env, s, t, target.value)
    ensures NamedNothing(env, t.log, |s.log|, if target.Some? then |t.log| - 1 else |t.log|)
    ensures target.None? ==> NoTimeLeft(t, deadline) || t.calls == s.calls + 2
    ensures AnsweredAtOnce(env, s, deadline) ==> target == Names(env(s.calls)) && t == FirstQuery(env, s, deadline)
    ensures NoTimeLeft(s, deadline) ==> t == s
    ensures NoTimeLeft(FirstQuery(env, s, deadline), deadline) ==> t.calls <= s.calls + 1
  {
    t := s;
    if NoTimeLeft(s, deadline) {
      return None, t;
    }
    var monitors := Call(env, s, ListMonitors, false, deadline);
    CallWithin(env, s, ListMonitors, false, deadline);
    t := monitors.1;
    target := if monitors.0.Reply? then Names(env(s.calls)) else None;
    if target.Some? {
      return;
    }
    if NoTimeLeft(t, deadline) {
      return None, t;
    }
    ghost var u := t;
    var k := t.calls;
    var active := Call(env, t, ActiveWorkspace, false, deadline);
    CallWithin(env, t, ActiveWorkspace, false, deadline);
    t := active.1;
    WithinTrans(s, u, t, deadline, deadline);
    OnlyTrans(s, u, t, IsQuery);
    target := if active.0.Reply? && env(k).active.Some? then WorkspaceTarget(env(k).active.value) else None;
  }

  datatype MainWindowsRead = Absent | Ready(windows: seq<Client>) | Unread

  /** The answer of `e` was a client list whose main windows satisfy `p`. */
  ghost predicate ListedMain(env: nat -> Fate, e: Sent, pid: nat, p: seq<Client> -> bool) {
    e.command == ListClients && e.answer.Reply? && env(e.call).clients.Some?
    && p(MainWindows(env(e.call).clients.value, pid))
  }

  /** `Ready` with the windows listed, `Absent` when what was answered lists none; a lost or unanswered
      query is `Unread`. */
  method ReadMainWindows(env: nat -> Fate, s: Session, pid: nat, deadline: nat)
    returns (r: MainWindowsRead, t: Session)
    ensures Within(s, t, deadline) && Only(s, t, IsList) && t.dialect == s.dialect
    ensures FirstListing(env, s, pid, deadline, r)
    ensures r.Ready? ==> r.windows != [] && |t.log| == |s.log| + 1
                         && ListedMain(env, t.log[|s.log|], pid, ws => ws == r.windows)
    ensures r.Absent? <==> |t.log| == |s.log| + 1 && t.log[|s.log|].answer.Reply?
                           && !ListedMain(env, t.log[|s.log|], pid, ws => ws != [])
    ensures r.Unread? <==> |t.log| == |s.log| || !t.log[|s.log|].answer.Reply?
    ensures t == Call(env, s, ListClients, false, deadline).1
  {
    var call := Call(env, s, ListClients, false, deadline);
    CallWithin(env, s, ListClients, false, deadline);
    t := call.1;
    if !call.0.Reply? {
      return Unread, t;
    }
    if env(s.calls).clients.None? {
      return Absent, t;
    }
    var windows := MainWindows(env(s.calls).clients.value, pid);
    r := if windows == [] then Absent else Ready(windows);
  }

  predicate OffHidden(windows: seq<Client>) {
    windows != [] && forall c :: c in windows ==> c.workspace != HIDDEN_WORKSPACE
  }

  /** The answer of `e` was a client list with some main window and none on the hidden workspace. */
  ghost predicate ListsAllShown(env: nat -> Fate, e: Sent, pid: nat) {
    && e.command == ListClients && e.answer.Reply? && env(e.call).clients.Some?
    && (exists c :: c in env(e.call).clients.value && c.pid == pid && !c.capture)
    && (forall c :: c in env(e.call).clients.value && c.pid == pid && !c.capture ==> c.workspace != HIDDEN_WORKSPACE)
  }

  lemma OffHiddenMeansShown(clients: seq<Client>, pid: nat)
    ensures OffHidden(MainWindows(clients, pid)) <==>
            && (exists c :: c in clients && c.pid == pid && !c.capture)
            && (forall c :: c in clients && c.pid == pid && !c.capture ==> c.workspace != HIDDEN_WORKSPACE)
  {
    if MainWindows(clients, pid) != [] {
      assert MainWindows(clients, pid)[0] in MainWindows(clients, pid);
    }
  }

  method MainWindowsLeftHidden(env: nat -> Fate, s: Session, pid: nat, deadline: nat)
    returns (left: bool, t: Session)
    ensures Within(s, t, deadline) && Only(s, t, IsQuery)
    ensures left <==> exists i :: |s.log| <= i < |t.log| && ListsAllShown(env, t.log[i], pid)
    ensures t == if NoTimeLeft(s, deadline) then s else Call(env, s, ListClients, false, deadline).1
  {
    t := s;
    if NoTimeLeft(s, deadline) {
      return false, t;
    }
    var call := Call(env, s, ListClients, false, deadline);
    CallWithin(env, s, ListClients, false, deadline);
    t := call.1;
    left := false;
    if call.0.Reply? && env(s.calls).clients.Some? {
      left := OffHidden(MainWindows(env(s.calls).clients.value, pid));
      OffHiddenMeansShown(env(s.calls).clients.value, pid);
      assert ListsAllShown(env, t.log[|s.log|], pid) <==> left;
    }
  }

  // ----- Restoring

  predicate IsFocus(c: Command) { c.Focus? }

  predicate IsFocusOrQuery(c: Command) { IsFocus(c) || IsQuery(c) }

  ghost predicate AcceptedMoveTo(s: Session, t: Session, target: string) {
    exists i :: |s.log| <= i < |t.log| && IsMoveTo(t.log[i].command, target) && Accepted(t.log[i])
  }

  lemma AcceptedMoveJoins(s: Session, t: Session, u: Session, target: string)
    requires s.log <= t.log <= u.log
    ensures AcceptedMoveTo(s, u, target) <==> AcceptedMoveTo(s, t, target) || AcceptedMoveTo(t, u, target)
  {
    if i :| |s.log| <= i < |t.log| && IsMoveTo(t.log[i].command, target) && Accepted(t.log[i]) {
      assert u.log[i] == t.log[i];
    }
    if i :| |s.log| <= i < |u.log| && IsMoveTo(u.log[i].command, target) && Accepted(u.log[i]) {
      assert i < |t.log| ==> u.log[i] == t.log[i];
    }
  }

  /** A dispatched move is one of the moves onto `target`. */
  lemma DispatchedMove(s: Session, t: Session, target: string, selector: Selector, deadline: nat, outcome: MoveOutcome)
    requires Dispatched(s, t, Move(target, selector), deadline, outcome)
    ensures OnlyMovesTo(s, t, target)
    ensures outcome == OutAccepted <==> AcceptedMoveTo(s, t, target)
  {
    if AcceptedMoveTo(s, t, target) {
      var i :| |s.log| <= i < |t.log| && IsMoveTo(t.log[i].command, target) && Accepted(t.log[i]);
      assert t.log[i].command == Move(target, selector);
      assert AcceptedSince(s, t, Move(target, selector));
    }
    if AcceptedSince(s, t, Move(target, selector)) {
      var i :| |s.log| <= i < |t.log| && t.log[i].command == Move(target, selector) && Accepted(t.log[i]);
      assert IsMoveTo(t.log[i].command, target);
    }
  }

  /** The windows with an accepted outcome had their own move accepted. */
  ghost predicate MovesAccepted(s: Session, t: Session, windows: seq<Client>, outcomes: seq<MoveOutcome>,
                                target: string)
  {
    && |outcomes| <= |windows|
    && forall i :: 0 <= i < |outcomes| && outcomes[i] == OutAccepted ==>
                     AcceptedSince(s, t, Move(target, ByAddress(windows[i].address)))
  }

  lemma OneMoreMoved(s: Session, u: Session, t: Session, windows: seq<Client>, outcomes: seq<MoveOutcome>,
                     target: string, outcome: MoveOutcome)
    requires |outcomes| < |windows| && MovesAccepted(s, u, windows, outcomes, target) && u.log <= t.log
    requires outcome == OutAccepted ==>
               AcceptedSince(s, t, Move(target, ByAddress(windows[|outcomes|].address)))
    ensures MovesAccepted(s, t, windows, outcomes + [outcome], target)
  {
    var all := outcomes + [outcome];
    forall j | 0 <= j < |all| && all[j] == OutAccepted
      ensures AcceptedSince(s, t, Move(target, ByAddress(windows[j].address)))
    {
      if j < |outcomes| {
        AcceptedSinceGrows(s, u, t, Move(target, ByAddress(windows[j].address)));
      }
    }
  }

  /** The first `|outcomes|` windows have been moved, and the quick run is on time. */
  ghost predicate Moving(env: nat -> Fate, s: Session, t: Session, windows: seq<Client>, outcomes: seq<MoveOutcome>,
                         target: string, overall: nat, quick: bool, d: nat)
  {
    && MovesAccepted(s, t, windows, outcomes, target)
    && AllTried(env, s, t, windows[..|outcomes|], Some(target), overall)
    && (quick ==> (forall j :: 0 <= j < |outcomes| ==> outcomes[j] == OutAccepted)
                  && Quick(env, t, d) && t.now <= s.now + TimeFor(|outcomes|, d))
  }

  lemma MovingOn(env: nat -> Fate, s: Session, u: Session, t: Session, windows: seq<Client>, outcomes: seq<MoveOutcome>,
                 target: string, overall: nat, quick: bool, d: nat, outcome: MoveOutcome)
    requires |outcomes| < |windows| && Moving(env, s, u, windows, outcomes, target, overall, quick, d)
    requires quick ==> s.now + TimeFor(|windows|, d) < overall
    requires RightAnswer(env, u, t, CommandFor(Some(target), windows[|outcomes|]), overall, outcome)
    requires Within(s, u, overall) && Within(u, t, overall)
    requires outcome == OutAccepted ==>
               AcceptedSince(s, t, Move(target, ByAddress(windows[|outcomes|].address)))
    ensures Moving(env, s, t, windows, outcomes + [outcome], target, overall, quick, d)
  {
    OneMoreTried(env, s, u, t, windows, |outcomes|, Some(target), overall, outcome);
    OneMoreMoved(s, u, t, windows, outcomes, target, outcome);
    if quick {
      var i := |outcomes|;
      QuickNext(env, s, u, t, CommandFor(Some(target), windows[i]), overall, outcome, d, i, |windows|);
    }
  }

  /** Every window is moved, in order, whatever became of the moves before it. */
  method MoveAll(env: nat -> Fate, s: Session, windows: seq<Client>, target: string, overall: nat, ghost d: nat)
    returns (moved: bool, outcomes: seq<MoveOutcome>, t: Session)
    ensures Within(s, t, overall) && OnlyMovesTo(s, t, target)
    ensures moved <==> AcceptedMoveTo(s, t, target)
    ensures |outcomes| == |windows| && (moved <==> OutAccepted in outcomes)
    ensures MovesAccepted(s, t, windows, outcomes, target)
    ensures windows != [] && Reaches(env, s, overall) ==> |t.log| > |s.log| && t.log[|s.log|].call == s.calls < t.calls
    ensures AllTried(env, s, t, windows, Some(target), overall)
    ensures Quick(env, s, d) && s.now + TimeFor(|windows|, d) < overall ==>
              && (forall i :: 0 <= i < |windows| ==> outcomes[i] == OutAccepted)
              && Quick(env, t, d) && t.now <= s.now + TimeFor(|windows|, d)
  {
    t := s;
    moved := false;
    outcomes := [];
    ghost var quick := Quick(env, s, d) && s.now + TimeFor(|windows|, d) < overall;
    var i := 0;
    while i < |windows|
      invariant 0 <= i <= |windows| && |outcomes| == i
      invariant Within(s, t, overall) && OnlyMovesTo(s, t, target)
      invariant moved <==> AcceptedMoveTo(s, t, target)
      invariant moved <==> OutAccepted in outcomes
      invariant Moving(env, s, t, windows, outcomes, target, overall, quick, d)
      invariant i == 0 ==> t == s
      invariant i > 0 && Reaches(env, s, overall) ==> |t.log| > |s.log| && t.log[|s.log|].call == s.calls < t.calls
    {
      ghost var u := t;
      var outcome;
      outcome, t := MoveOne(env, s, t, windows[i], target, overall);
      MovingOn(env, s, u, t, windows, outcomes, target, overall, quick, d, outcome);
      outcomes := outcomes + [outcome];
      moved := moved || outcome == OutAccepted;
      i := i + 1;
    }
    assert windows[..i] == windows;
  }

  /** One of the moves: `s` is the session before the first. */
  method MoveOne(env: nat -> Fate, ghost s: Session, u: Session, window: Client, target: string, overall: nat)
    returns (outcome: MoveOutcome, t: Session)
    requires Within(s, u, overall) && OnlyMovesTo(s, u, target)
    ensures Within(s, t, overall) && OnlyMovesTo(s, t, target) && Within(u, t, overall)
    ensures AcceptedMoveTo(s, t, target) <==> AcceptedMoveTo(s, u, target) || outcome == OutAccepted
    ensures outcome == OutAccepted ==> AcceptedSince(s, t, Move(target, ByAddress(window.address)))
    ensures Reaches(env, u, overall) ==> |t.log| > |u.log| && t.log[|u.log|].call == u.calls < t.calls
    ensures RightAnswer(env, u, t, CommandFor(Some(target), window), overall, outcome)
  {
    ghost var c := Move(target, ByAddress(window.address));
    outcome, t := DispatchMoveThenLegacy(env, u, Move(target, ByAddress(window.address)), overall);
    DispatchedMove(u, t, target, ByAddress(window.address), overall, outcome);
    AcceptedMoveJoins(s, u, t, target);
    WithinTrans(s, u, t, overall, overall);
    OnlyMovesTrans(s, u, t, target);
    if outcome == OutAccepted {
      assert AcceptedSince(u, t, c);
    }
  }

  lemma AcceptedSinceGrows(s: Session, t: Session, u: Session, c: Command)
    requires AcceptedSince(s, t, c) && t.log <= u.log
    ensures AcceptedSince(s, u, c)
  {
    var i :| |s.log| <= i < |t.log| && t.log[i].command == c && Accepted(t.log[i]);
    assert u.log[i] == t.log[i];
  }

  /** Each of these windows got an accepted focus of its own. */
  ghost predicate AllFocused(s: Session, t: Session, windows: seq<Client>) {
    forall i :: 0 <= i < |windows| ==> AcceptedSince(s, t, Focus(ByAddress(windows[i].address)))
  }

  lemma OneMoreFocused(s: Session, u: Session, t: Session, windows: seq<Client>, i: nat, deadline: nat)
    requires i < |windows| && s.log <= u.log && AllFocused(s, u, windows[..i])
    requires Dispatched(u, t, Focus(ByAddress(windows[i].address)), deadline, OutAccepted)
    ensures AllFocused(s, t, windows[..i + 1])
  {
    var done := windows[..i + 1];
    forall j | 0 <= j < |done| ensures AcceptedSince(s, t, Focus(ByAddress(done[j].address))) {
      if j < i {
        assert windows[..i][j] == windows[j];
        AcceptedSinceGrows(s, u, t, Focus(ByAddress(windows[j].address)));
      } else {
        assert AcceptedSince(u, t, Focus(ByAddress(windows[i].address)));
      }
    }
  }

  /** The first `i` windows have been focused, and the quick run is on time. */
  ghost predicate Focusing(env: nat -> Fate, s: Session, t: Session, windows: seq<Client>, i: nat, overall: nat,
                           quick: bool, d: nat)
    requires i <= |windows|
  {
    && AllTried(env, s, t, windows[..i], None, overall)
    && (quick ==> AllFocused(s, t, windows[..i]) && Quick(env, t, d) && t.now <= s.now + TimeFor(i, d) < overall)
  }

  lemma FocusingOn(env: nat -> Fate, s: Session, u: Session, t: Session, windows: seq<Client>, i: nat, overall: nat,
                   quick: bool, d: nat, outcome: MoveOutcome)
    requires i < |windows| && Focusing(env, s, u, windows, i, overall, quick, d)
    requires quick ==> s.now + TimeFor(|windows|, d) < overall
    requires RightAnswer(env, u, t, CommandFor(None, windows[i]), overall, outcome)
    requires Dispatched(u, t, CommandFor(None, windows[i]), overall, outcome)
    requires Within(s, u, overall) && Within(u, t, overall)
    ensures Focusing(env, s, t, windows, i + 1, overall, quick, d)
  {
    OneMoreTried(env, s, u, t, windows, i, None, overall, outcome);
    if quick {
      TimeForNext(i, |windows|, d);
      QuickNext(env, s, u, t, CommandFor(None, windows[i]), overall, outcome, d, i, |windows|);
      OneMoreFocused(s, u, t, windows, i, overall);
    }
  }

  /** One of the focus commands: `s` is the session before the first. */
  method FocusOne(env: nat -> Fate, ghost s: Session, u: Session, window: Client, overall: nat)
    returns (outcome: MoveOutcome, t: Session)
    requires Within(s, u, overall) && Only(s, u, IsFocus)
    ensures Within(s, t, overall) && Only(s, t, IsFocus) && Within(u, t, overall)
    ensures Dispatched(u, t, CommandFor(None, window), overall, outcome)
    ensures RightAnswer(env, u, t, CommandFor(None, window), overall, outcome)
  {
    outcome, t := DispatchMoveThenLegacy(env, u, Focus(ByAddress(window.address)), overall);
    FocusedOne(s, u, t, window.address, overall, outcome);
  }

  /** Every window is focused, in order, until time is out. */
  method FocusAll(env: nat -> Fate, s: Session, windows: seq<Client>, overall: nat, ghost d: nat) returns (t: Session)
    ensures Within(s, t, overall) && Only(s, t, IsFocus)
    ensures AllTried(env, s, t, windows, None, overall) || NoTimeLeft(t, overall)
    ensures Quick(env, s, d) && s.now + TimeFor(|windows|, d) < overall ==> AllFocused(s, t, windows)
  {
    t := s;
    ghost var quick := Quick(env, s, d) && s.now + TimeFor(|windows|, d) < overall;
    var i := 0;
    while i < |windows| && !NoTimeLeft(t, overall)
      invariant 0 <= i <= |windows|
      invariant Within(s, t, overall) && Only(s, t, IsFocus)
      invariant Focusing(env, s, t, windows, i, overall, quick, d)
    {
      ghost var u := t;
      var outcome;
      outcome, t := FocusOne(env, s, t, windows[i], overall);
      FocusingOn(env, s, u, t, windows, i, overall, quick, d, outcome);
      i := i + 1;
    }
    AllFocusedInTheEnd(env, s, t, windows, i, overall, quick, d);
  }

  lemma AllFocusedInTheEnd(env: nat -> Fate, s: Session, t: Session, windows: seq<Client>, i: nat, overall: nat,
                           quick: bool, d: nat)
    requires i <= |windows| && Focusing(env, s, t, windows, i, overall, quick, d)
    requires i == |windows| || NoTimeLeft(t, overall)
    ensures AllTried(env, s, t, windows, None, overall) || NoTimeLeft(t, overall)
    ensures quick ==> AllFocused(s, t, windows)
  {
    assert windows[..|windows|] == windows;
  }

  lemma FocusedOne(s: Session, u: Session, t: Session, address: nat, overall: nat, outcome: MoveOutcome)
    requires Within(s, u, overall) && Only(s, u, IsFocus)
    requires Dispatched(u, t, Focus(ByAddress(address)), overall, outcome)
    ensures Within(s, t, overall) && Only(s, t, IsFocus)
  {
    WithinTrans(s, u, t, overall, overall);
    assert Only(u, t, IsFocus);
    OnlyTrans(s, u, t, IsFocus);
  }

  // ----- A whole show

  /** Everything a show writes between `s` and `t`: only before the overall deadline, moves only onto
      `target`, no move after a focus, and no move or focus at all without the matching permission. */
  ghost predicate Restored(s: Session, t: Session, target: Option<string>, overall: nat) {
    && Within(s, t, overall)
    && (forall i :: |s.log| <= i < |t.log| && t.log[i].command.Move? ==>
          target == Some(t.log[i].command.target) && IsSafeRestoreTarget(t.log[i].command.target))
    && (forall i, j :: |s.log| <= i < j < |t.log| && t.log[i].command.Focus? ==> !t.log[j].command.Move?)
  }

  /** Queries, then moves onto a safe target, then focus commands and queries. */
  lemma PhasesRestore(s: Session, u: Session, v: Session, t: Session, target: string, overall: nat)
    requires IsSafeRestoreTarget(target)
    requires Within(s, u, overall) && Within(u, v, overall) && Within(v, t, overall)
    requires Only(s, u, IsQuery) && OnlyMovesTo(u, v, target) && Only(v, t, IsFocusOrQuery)
    ensures Restored(s, t, Some(target), overall)
  {
    WithinTrans(s, u, v, overall, overall);
    WithinTrans(s, v, t, overall, overall);
    forall i | |s.log| <= i < |t.log|
      ensures i < |u.log| ==> IsQuery(t.log[i].command)
      ensures |u.log| <= i < |v.log| ==> IsMoveTo(t.log[i].command, target)
      ensures |v.log| <= i ==> t.log[i].command.Focus? || IsQuery(t.log[i].command)
    {
      if i < |u.log| {
        assert t.log[i] == v.log[i] == u.log[i];
      } else if i < |v.log| {
        assert t.log[i] == v.log[i];
      }
    }
  }

  lemma NoMovesRestore(s: Session, t: Session, overall: nat)
    requires Within(s, t, overall) && Only(s, t, IsFocusOrQuery)
    ensures Restored(s, t, None, overall)
  {
  }

  lemma WithinLater(s: Session, t: Session, d: nat, e: nat)
    requires Within(s, t, d) && d <= e
    ensures Within(s, t, e)
  {
  }

  /** Up to two tries to learn where to go, of which the second uses half of the reserve. */
  method LearnTwice(env: nat -> Fate, s: Session, start: nat, budget: nat) returns (target: Option<string>, t: Session)
    requires s.now <= ShowQueryDeadline(start, budget)
    ensures Within(s, t, OverallDeadline(start, budget)) && Only(s, t, IsQuery) && t.dialect == s.dialect
    ensures target.Some? ==> Learned(env, s, t, target.value)
    ensures target.Some? ==> t.now + ShowReserve(budget) / 2 <= OverallDeadline(start, budget)
    ensures NamedNothing(env, t.log, |s.log|, if target.Some? then |t.log| - 1 else |t.log|)
    ensures target.None? ==>
              || t.calls >= s.calls + 2
              || NoTimeLeft(t, DeadlineLeavingRoomForMove(OverallDeadline(start, budget), budget))
    ensures AnsweredAtOnce(env, s, ShowQueryDeadline(start, budget)) ==>
              target == Names(env(s.calls)) && t == FirstQuery(env, s, ShowQueryDeadline(start, budget))
  {
    DeadlinesLeaveRoom(start, budget);
    target, t := LearnRestoreWorkspace(env, s, ShowQueryDeadline(start, budget));
    WithinLater(s, t, ShowQueryDeadline(start, budget), OverallDeadline(start, budget));
    if target.None? {
      ghost var u := t;
      var deadline := DeadlineLeavingRoomForMove(OverallDeadline(start, budget), budget);
      target, t := LearnRestoreWorkspace(env, t, deadline);
      WithinLater(u, t, deadline, OverallDeadline(start, budget));
      WithinTrans(s, u, t, OverallDeadline(start, budget), OverallDeadline(start, budget));
      OnlyTrans(s, u, t, IsQuery);
      NothingInEither(env, u.log, t.log, |s.log|, if target.Some? then |t.log| - 1 else |t.log|);
    }
  }

  lemma NothingInEither(env: nat -> Fate, first: seq<Sent>, all: seq<Sent>, from: nat, to: nat)
    requires first <= all && |first| <= to
    requires NamedNothing(env, first, from, |first|) && NamedNothing(env, all, |first|, to)
    ensures NamedNothing(env, all, from, to)
  {
    forall i, target | from <= i < to ensures !LearnedAt(env, all[i], target) {
      if i < |first| {
        assert all[i] == first[i];
      }
    }
  }

  /** The target was named by some answer of this run, and the very next call is a move onto it, which
      is written whenever its connection takes less than half of the reserve. */
  ghost predicate MoveGetsItsChance(env: nat -> Fate, s: Session, t: Session, target: string, budget: nat) {
    exists i :: |s.log| <= i < |t.log| && LearnedAt(env, t.log[i], target) && NextIsMove(env, t, i, target, budget)
  }

  ghost predicate NextIsMove(env: nat -> Fate, t: Session, i: nat, target: string, budget: nat)
    requires i < |t.log|
  {
    var k := t.log[i].call + 1;
    env(k).delivery != Lost && env(k).connect < ShowReserve(budget) / 2 ==>
      i + 1 < |t.log| && t.log[i + 1].call == k && IsMoveTo(t.log[i + 1].command, target)
  }

  lemma ChanceTaken(env: nat -> Fate, s: Session, u: Session, v: Session, t: Session, target: string, budget: nat,
                    overall: nat)
    requires s.log <= u.log <= v.log <= t.log && Learned(env, s, u, target)
    requires OnlyMovesTo(u, v, target)
    requires u.now + ShowReserve(budget) / 2 <= overall
    requires Reaches(env, u, overall) ==> |v.log| > |u.log| && v.log[|u.log|].call == u.calls < v.calls
    ensures MoveGetsItsChance(env, s, t, target, budget)
  {
    var i := |u.log| - 1;
    var k := u.calls;
    assert t.log[i] == u.log[i];
    if env(k).delivery != Lost && env(k).connect < ShowReserve(budget) / 2 {
      assert Reaches(env, u, overall);
      assert t.log[i + 1] == v.log[i + 1];
    }
    assert NextIsMove(env, t, i, target, budget);
  }

  lemma ChanceKept(env: nat -> Fate, s: Session, u: Session, t: Session, target: string, budget: nat)
    requires |s.log| <= |u.log| && MoveGetsItsChance(env, u, t, target, budget)
    ensures MoveGetsItsChance(env, s, t, target, budget)
  {
    var i :| |u.log| <= i < |t.log| && LearnedAt(env, t.log[i], target) && NextIsMove(env, t, i, target, budget);
    assert |s.log| <= i;
  }

  /** Each of these windows got an accepted move of its own. */
  ghost predicate AllMoved(s: Session, t: Session, windows: seq<Client>, target: string) {
    forall i :: 0 <= i < |windows| ==> AcceptedSince(s, t, Move(target, ByAddress(windows[i].address)))
  }

  lemma AllMovedKept(s: Session, u: Session, v: Session, t: Session, windows: seq<Client>, target: string)
    requires s.log <= u.log && v.log <= t.log && AllMoved(u, v, windows, target)
    ensures AllMoved(s, t, windows, target)
  {
    forall i | 0 <= i < |windows| ensures AcceptedSince(s, t, Move(target, ByAddress(windows[i].address))) {
      var c := Move(target, ByAddress(windows[i].address));
      AcceptedSinceGrows(u, v, t, c);
      var j :| |u.log| <= j < |t.log| && t.log[j].command == c && Accepted(t.log[j]);
      assert |s.log| <= j;
    }
  }

  /** No answer of this run named a workspace the filter accepts. */
  ghost predicate NoSafeNamed(env: nat -> Fate, s: Session, t: Session) {
    forall i, target :: |s.log| <= i < |t.log| && LearnedAt(env, t.log[i], target) ==> !IsSafeRestoreTarget(target)
  }

  lemma NothingLearned(env: nat -> Fate, s: Session, u: Session, learned: Option<string>)
    requires learned.Some? ==> Learned(env, s, u, learned.value) && !IsSafeRestoreTarget(learned.value)
    requires NamedNothing(env, u.log, |s.log|, if learned.Some? && u.log != [] then |u.log| - 1 else |u.log|)
    ensures NoSafeNamed(env, s, u)
  {
    forall i, target | |s.log| <= i < |u.log|
      ensures LearnedAt(env, u.log[i], target) ==> !IsSafeRestoreTarget(target)
    {
      if LearnedAt(env, u.log[i], target) && learned.Some? && i == |u.log| - 1 {
        LearnedOnce(env, u.log[i], target, learned.value);
      }
    }
  }

  /** An answer names one workspace. */
  lemma LearnedOnce(env: nat -> Fate, e: Sent, a: string, b: string)
    requires LearnedAt(env, e, a) && LearnedAt(env, e, b)
    ensures a == b
  {
  }

  lemma NothingLearnedLater(env: nat -> Fate, s: Session, u: Session, t: Session)
    requires s.log <= u.log <= t.log && NoSafeNamed(env, s, u) && Only(u, t, IsFocus)
    ensures NoSafeNamed(env, s, t)
  {
    forall i, target | |s.log| <= i < |t.log|
      ensures LearnedAt(env, t.log[i], target) ==> !IsSafeRestoreTarget(target)
    {
      if i < |u.log| {
        assert t.log[i] == u.log[i];
      } else {
        assert IsFocus(t.log[i].command);
      }
    }
  }

  /** The list and the monitors are answered within `d` each, the monitors safely, and time is left for
      `n` dispatches. */
  ghost predicate TimeTo(env: nat -> Fate, s: Session, start: nat, budget: nat, d: nat, n: nat) {
    && Quick(env, s, d) && SafeName(env(s.calls))
    && s.now + d < ShowQueryDeadline(start, budget) && s.now + d + TimeFor(n, d) < OverallDeadline(start, budget)
  }

  lemma LearnsQuickly(env: nat -> Fate, s: Session, start: nat, budget: nat, d: nat, n: nat)
    requires TimeTo(env, s, start, budget, d, n)
    ensures AnsweredAtOnce(env, s, ShowQueryDeadline(start, budget))
    ensures var u := FirstQuery(env, s, ShowQueryDeadline(start, budget));
            Quick(env, u, d) && u.now + TimeFor(n, d) < OverallDeadline(start, budget) && u.now <= s.now + d
  {
    QuickCall(env, s, ListMonitors, false, ShowQueryDeadline(start, budget), d);
  }

  /** Where to go, if some answer names a workspace the filter accepts. */
  method LearnSafely(env: nat -> Fate, s: Session, start: nat, budget: nat, ghost d: nat)
    returns (target: Option<string>, t: Session)
    requires s.now <= ShowQueryDeadline(start, budget)
    ensures Within(s, t, OverallDeadline(start, budget)) && Only(s, t, IsQuery)
    ensures target.Some? ==> Learned(env, s, t, target.value) && IsSafeRestoreTarget(target.value)
    ensures target.Some? ==> t.now + ShowReserve(budget) / 2 <= OverallDeadline(start, budget)
    ensures target.None? ==> NoSafeNamed(env, s, t)
    ensures forall n: nat :: TimeTo(env, s, start, budget, d, n) ==>
                               && target.Some? && target == Names(env(s.calls))
                               && Quick(env, t, d) && t.now + TimeFor(n, d) < OverallDeadline(start, budget)
  {
    target, t := LearnTwice(env, s, start, budget);
    forall n: nat | TimeTo(env, s, start, budget, d, n)
      ensures target.Some? && target == Names(env(s.calls)) && IsSafeRestoreTarget(target.value)
      ensures Quick(env, t, d) && t.now + TimeFor(n, d) < OverallDeadline(start, budget)
    {
      LearnsQuickly(env, s, start, budget, d, n);
    }
    if target.None? || !IsSafeRestoreTarget(target.value) {
      NothingLearned(env, s, t, target);
      target := None;
    }
  }

  /** What showing these windows one by one owes. */
  ghost predicate ShownByAddress(env: nat -> Fate, s: Session, t: Session, windows: seq<Client>, target: Option<string>,
                                 moved: bool, budget: nat, overall: nat)
  {
    && Restored(s, t, target, overall)
    && (target.Some? ==> MoveGetsItsChance(env, s, t, target.value, budget))
    && (target.Some? ==> AllTried(env, s, t, windows, target, overall))
    && (target.None? ==> NoSafeNamed(env, s, t))
    && (AllTried(env, s, t, windows, None, overall) || NoTimeLeft(t, overall))
    && (moved <==> target.Some? && AcceptedMoveTo(s, t, target.value))
  }

  method RestoreAddressedWindows(env: nat -> Fate, s: Session, windows: seq<Client>, start: nat, budget: nat,
                                 ghost d: nat)
    returns (moved: bool, target: Option<string>, t: Session)
    requires s.now <= ShowQueryDeadline(start, budget) && windows != []
    ensures ShownByAddress(env, s, t, windows, target, moved, budget, OverallDeadline(start, budget))
    ensures TimeTo(env, s, start, budget, d, |windows|) ==>
              moved && target == Names(env(s.calls)) && AllMoved(s, t, windows, target.value)
    ensures TimeTo(env, s, start, budget, d, Twice(|windows|)) ==> AllFocused(s, t, windows)
  {
    target, t := LearnSafely(env, s, start, budget, d);
    ghost var u := t;
    if target.None? {
      moved := false;
      t := FocusAll(env, t, windows, OverallDeadline(start, budget), d);
      FocusOnly(env, s, u, t, windows, OverallDeadline(start, budget), budget);
      return moved, None, t;
    }
    ghost var v;
    moved, v, t := MoveThenFocus(env, t, windows, target.value, OverallDeadline(start, budget), d);
    AfterLearning(env, s, u, v, t, windows, target, moved, budget, OverallDeadline(start, budget));
  }

  lemma AllFocusedKept(s: Session, v: Session, t: Session, windows: seq<Client>)
    requires s.log <= v.log && AllFocused(v, t, windows)
    ensures AllFocused(s, t, windows)
  {
    forall i | 0 <= i < |windows| ensures AcceptedSince(s, t, Focus(ByAddress(windows[i].address))) {
      var c := Focus(ByAddress(windows[i].address));
      assert AcceptedSince(v, t, c);
      var j :| |v.log| <= j < |t.log| && t.log[j].command == c && Accepted(t.log[j]);
      assert |s.log| <= j;
    }
  }

  lemma FocusOnly(env: nat -> Fate, s: Session, u: Session, t: Session, windows: seq<Client>, overall: nat,
                  budget: nat)
    requires Within(s, u, overall) && Only(s, u, IsQuery) && Within(u, t, overall) && Only(u, t, IsFocus)
    requires NoSafeNamed(env, s, u)
    requires AllTried(env, u, t, windows, None, overall) || NoTimeLeft(t, overall)
    ensures ShownByAddress(env, s, t, windows, None, false, budget, overall)
  {
    WithinTrans(s, u, t, overall, overall);
    OnlyTrans(s, u, t, IsFocusOrQuery);
    NoMovesRestore(s, t, overall);
    NothingLearnedLater(env, s, u, t);
    if AllTried(env, u, t, windows, None, overall) {
      AllTriedWider(env, s, u, t, t, windows, None, overall);
    }
  }

  /** All moves, then all focus commands. `v` is the session in between. */
  method MoveThenFocus(env: nat -> Fate, u: Session, windows: seq<Client>, target: string, overall: nat, ghost d: nat)
    returns (moved: bool, ghost v: Session, t: Session)
    requires windows != []
    ensures Within(u, v, overall) && OnlyMovesTo(u, v, target)
    ensures Within(v, t, overall) && Only(v, t, IsFocus)
    ensures moved <==> AcceptedMoveTo(u, v, target)
    ensures Reaches(env, u, overall) ==> |v.log| > |u.log| && v.log[|u.log|].call == u.calls < v.calls
    ensures AllTried(env, u, v, windows, Some(target), overall)
    ensures AllTried(env, v, t, windows, None, overall) || NoTimeLeft(t, overall)
    ensures Quick(env, u, d) && u.now + TimeFor(|windows|, d) < overall ==> moved && AllMoved(u, v, windows, target)
    ensures Quick(env, u, d) && u.now + TimeFor(Twice(|windows|), d) < overall ==>
              AllFocused(v, t, windows)
  {
    var outcomes;
    moved, outcomes, t := MoveAll(env, u, windows, target, overall, d);
    v := t;
    assert moved || outcomes[0] != OutAccepted;
    TimeForTwice(|windows|, d);
    t := FocusAll(env, t, windows, overall, d);
  }

  lemma AfterLearning(env: nat -> Fate, s: Session, u: Session, v: Session, t: Session, windows: seq<Client>,
                      target: Option<string>, moved: bool, budget: nat, overall: nat)
    requires Within(s, u, overall) && Only(s, u, IsQuery) && target.Some? && Learned(env, s, u, target.value)
    requires IsSafeRestoreTarget(target.value) && u.now + ShowReserve(budget) / 2 <= overall
    requires Within(u, v, overall) && OnlyMovesTo(u, v, target.value)
    requires Within(v, t, overall) && Only(v, t, IsFocus) && (moved <==> AcceptedMoveTo(u, v, target.value))
    requires Reaches(env, u, overall) ==> |v.log| > |u.log| && v.log[|u.log|].call == u.calls < v.calls
    requires AllTried(env, u, v, windows, target, overall)
    requires AllTried(env, v, t, windows, None, overall) || NoTimeLeft(t, overall)
    ensures ShownByAddress(env, s, t, windows, target, moved, budget, overall)
    ensures AllMoved(u, v, windows, target.value) ==> AllMoved(s, t, windows, target.value)
    ensures AllFocused(v, t, windows) ==> AllFocused(s, t, windows)
  {
    PhasesRestore(s, u, v, t, target.value, overall);
    ChanceTaken(env, s, u, v, t, target.value, budget, overall);
    AcceptedInTheMiddle(s, u, v, t, target.value);
    WithinTrans(s, u, v, overall, overall);
    TriedInTheMiddle(env, s, u, v, t, windows, target, overall);
    if AllMoved(u, v, windows, target.value) {
      AllMovedKept(s, u, v, t, windows, target.value);
    }
    if AllFocused(v, t, windows) {
      AllFocusedKept(s, v, t, windows);
    }
  }

  lemma AcceptedInTheMiddle(s: Session, u: Session, v: Session, t: Session, target: string)
    requires s.log <= u.log <= v.log <= t.log && Only(s, u, IsQuery) && Only(v, t, IsFocusOrQuery)
    ensures AcceptedMoveTo(s, t, target) <==> AcceptedMoveTo(u, v, target)
  {
    NoMoveAccepted(s, u, target);
    NoMoveAccepted(v, t, target);
    AcceptedMoveJoins(s, u, v, target);
    AcceptedMoveJoins(s, v, t, target);
  }

  lemma TriedInTheMiddle(env: nat -> Fate, s: Session, u: Session, v: Session, t: Session, windows: seq<Client>,
                         target: Option<string>, overall: nat)
    requires Spans(s, u) && Spans(u, v) && Spans(v, t) && s.legacyRules == u.legacyRules == v.legacyRules
    ensures AllTried(env, u, v, windows, target, overall) ==> AllTried(env, s, t, windows, target, overall)
    ensures AllTried(env, v, t, windows, None, overall) ==> AllTried(env, s, t, windows, None, overall)
  {
    if AllTried(env, u, v, windows, target, overall) {
      AllTriedWider(env, s, u, v, t, windows, target, overall);
    }
    if AllTried(env, v, t, windows, None, overall) {
      AllTriedWider(env, s, v, t, t, windows, None, overall);
    }
  }

  /** A monitor list naming a workspace the filter accepts. */
  predicate SafeName(f: Fate) { Names(f).Some? && IsSafeRestoreTarget(Names(f).value) }

  lemma NoMoveAccepted(s: Session, t: Session, target: string)
    requires Only(s, t, IsFocusOrQuery) || Only(s, t, IsQuery)
    ensures !AcceptedMoveTo(s, t, target)
  {
  }

  /** An accepted move, and a later list with every main window off the hidden workspace. */
  ghost predicate FollowedUp(env: nat -> Fate, s: Session, t: Session, pid: nat, target: string) {
    exists i, j :: |s.log| <= i < j < |t.log| && IsMoveTo(t.log[i].command, target) && Accepted(t.log[i])
                   && ListsAllShown(env, t.log[j], pid)
  }

  /** The move phase and the follow-up list decide the fallback. */
  lemma FollowedUpIff(env: nat -> Fate, u: Session, v: Session, w: Session, t: Session, pid: nat, target: string)
    requires u.log <= v.log <= w.log <= t.log
    requires OnlyMovesTo(u, v, target) && Only(v, w, IsQuery) && Only(w, t, IsFocus)
    ensures FollowedUp(env, u, t, pid, target) <==>
            AcceptedMoveTo(u, v, target)
            && exists i :: |v.log| <= i < |w.log| && ListsAllShown(env, w.log[i], pid)
  {
    forall i | |u.log| <= i < |t.log|
      ensures i < |v.log| ==> IsMoveTo(t.log[i].command, target) && t.log[i] == v.log[i]
      ensures |v.log| <= i < |w.log| ==> t.log[i] == w.log[i] && IsQuery(t.log[i].command)
      ensures |w.log| <= i ==> IsFocus(t.log[i].command)
    {
      if i < |v.log| {
        assert t.log[i] == v.log[i];
      } else if i < |w.log| {
        assert t.log[i] == w.log[i];
      }
    }
    if FollowedUp(env, u, t, pid, target) {
      var i, j :| |u.log| <= i < j < |t.log| && IsMoveTo(t.log[i].command, target) && Accepted(t.log[i])
                  && ListsAllShown(env, t.log[j], pid);
      assert i < |v.log| <= j < |w.log|;
      assert ListsAllShown(env, w.log[j], pid);
    }
    if AcceptedMoveTo(u, v, target) && exists i :: |v.log| <= i < |w.log| && ListsAllShown(env, w.log[i], pid) {
      var i :| |u.log| <= i < |v.log| && IsMoveTo(v.log[i].command, target) && Accepted(v.log[i]);
      var j :| |v.log| <= j < |w.log| && ListsAllShown(env, w.log[j], pid);
      assert t.log[i] == v.log[i] && t.log[j] == w.log[j];
    }
  }

  lemma FollowedUpKept(env: nat -> Fate, s: Session, u: Session, t: Session, pid: nat, target: string)
    requires s.log <= u.log <= t.log && Only(s, u, IsQuery)
    ensures FollowedUp(env, s, t, pid, target) <==> FollowedUp(env, u, t, pid, target)
  {
    if FollowedUp(env, s, t, pid, target) {
      var i, j :| |s.log| <= i < j < |t.log| && IsMoveTo(t.log[i].command, target) && Accepted(t.log[i])
                  && ListsAllShown(env, t.log[j], pid);
      assert |u.log| <= i;
    }
    if FollowedUp(env, u, t, pid, target) {
      var i, j :| |u.log| <= i < j < |t.log| && IsMoveTo(t.log[i].command, target) && Accepted(t.log[i])
                  && ListsAllShown(env, t.log[j], pid);
      assert |s.log| <= i;
    }
  }

  /** Somewhere between `s` and `t` a client list was asked for and answered. */
  ghost predicate ListAnswered(s: Session, t: Session) {
    exists i :: |s.log| <= i < |t.log| && t.log[i].command == ListClients && t.log[i].answer.Reply?
  }

  /** The list that must confirm an accepted move, and the focus. `w` is the session after the list. */
  method ConfirmThenFocus(env: nat -> Fate, v: Session, pid: nat, overall: nat, accepted: bool, ghost d: nat)
    returns (shown: bool, ghost w: Session, t: Session)
    ensures Within(v, w, overall) && Only(v, w, IsQuery) && Within(w, t, overall) && Only(w, t, IsFocus)
    ensures shown <==> accepted && exists i :: |v.log| <= i < |w.log| && ListsAllShown(env, w.log[i], pid)
    ensures shown ==> Tried(env, v, t, Focus(ByClass), overall) || NoTimeLeft(t, overall)
    ensures !shown ==> t == w
    ensures accepted && Answers(env(v.calls), d) && v.now + d < overall ==> ListAnswered(v, w)
  {
    shown, t := accepted, v;
    if shown {
      shown, t := MainWindowsLeftHidden(env, t, pid, overall);
      if Answers(env(v.calls), d) && v.now + d < overall {
        QuickCall(env, v, ListClients, false, overall, d);
        assert t.log[|v.log|].command == ListClients && t.log[|v.log|].answer.Reply?;
      }
    }
    w := t;
    if shown && !NoTimeLeft(t, overall) {
      var focused;
      focused, t := DispatchMoveThenLegacy(env, t, Focus(ByClass), overall);
      TriedOnce(env, v, w, t, Focus(ByClass), overall, focused);
    }
  }

  /** The move by class, the list that must confirm it, and the focus. `v` is the session after the move. */
  method MoveByClass(env: nat -> Fate, s: Session, pid: nat, target: string, overall: nat, ghost d: nat)
    returns (shown: bool, ghost v: Session, t: Session)
    ensures Within(s, v, overall) && Within(v, t, overall)
    ensures OnlyMovesTo(s, v, target) && Only(v, t, IsFocusOrQuery)
    ensures shown <==> FollowedUp(env, s, t, pid, target)
    ensures Reaches(env, s, overall) ==> |v.log| > |s.log| && v.log[|s.log|].call == s.calls < v.calls
    ensures Tried(env, s, v, Move(target, ByClass), overall)
    ensures shown ==> Tried(env, v, t, Focus(ByClass), overall) || NoTimeLeft(t, overall)
    ensures !shown ==> Only(v, t, IsQuery)
    ensures Quick(env, s, d) && s.now + 3 * d < overall ==> AcceptedMoveTo(s, v, target) && ListAnswered(v, t)
  {
    var outcome;
    outcome, t := DispatchMoveThenLegacy(env, s, Move(target, ByClass), overall);
    v := t;
    DispatchedMove(s, v, target, ByClass, overall, outcome);
    TriedOnce(env, s, s, v, Move(target, ByClass), overall, outcome);
    if Quick(env, s, d) && s.now + 3 * d < overall {
      QuickDispatch(env, s, v, Move(target, ByClass), overall, outcome, d);
    }
    ghost var w;
    shown, w, t := ConfirmThenFocus(env, t, pid, overall, outcome == OutAccepted, d);
    AnsweredStays(v, w, t);
    WithinTrans(v, w, t, overall, overall);
    OnlyTrans(v, w, t, IsFocusOrQuery);
    FollowedUpIff(env, s, v, w, t, pid, target);
  }

  lemma AnsweredStays(s: Session, t: Session, u: Session)
    requires t.log <= u.log
    ensures ListAnswered(s, t) ==> ListAnswered(s, u)
  {
    if i :| |s.log| <= i < |t.log| && t.log[i].command == ListClients && t.log[i].answer.Reply? {
      assert u.log[i] == t.log[i];
    }
  }

  /** Where to go by class, if some answer names a workspace the filter accepts. */
  method LearnForClass(env: nat -> Fate, s: Session, start: nat, budget: nat, ghost d: nat)
    returns (target: Option<string>, t: Session)
    requires s.now <= ShowQueryDeadline(start, budget)
    ensures Within(s, t, OverallDeadline(start, budget)) && Only(s, t, IsQuery)
    ensures target.Some? ==> Learned(env, s, t, target.value) && IsSafeRestoreTarget(target.value)
    ensures target.Some? ==> t.now + ShowReserve(budget) / 2 <= OverallDeadline(start, budget)
    ensures target.None? ==> NoSafeNamed(env, s, t)
    ensures TimeByClass(env, s, start, budget, d) ==>
              && target.Some? && target == Names(env(s.calls))
              && Quick(env, t, d) && t.now + 3 * d < OverallDeadline(start, budget)
  {
    var deadline := DeadlineLeavingRoomForMove(OverallDeadline(start, budget), budget);
    DeadlinesLeaveRoom(start, budget);
    target, t := LearnRestoreWorkspace(env, s, deadline);
    WithinLater(s, t, deadline, OverallDeadline(start, budget));
    if TimeByClass(env, s, start, budget, d) {
      QuickCall(env, s, ListMonitors, false, deadline, d);
    }
    if target.None? || !IsSafeRestoreTarget(target.value) {
      NothingLearned(env, s, t, target);
      target := None;
    }
  }

  /** What showing by class owes. */
  ghost predicate ShownByClass(env: nat -> Fate, s: Session, t: Session, pid: nat, target: Option<string>, shown: bool,
                               budget: nat, overall: nat)
  {
    && Restored(s, t, target, overall)
    && (target.Some? ==> MoveGetsItsChance(env, s, t, target.value, budget))
    && (target.Some? ==> Tried(env, s, t, Move(target.value, ByClass), overall))
    && (target.None? ==> NoSafeNamed(env, s, t))
    && (shown <==> target.Some? && FollowedUp(env, s, t, pid, target.value))
    && (shown ==> Tried(env, s, t, Focus(ByClass), overall) || NoTimeLeft(t, overall))
    && (!shown ==> NoFocus(s, t))
  }

  ghost predicate NoFocus(s: Session, t: Session) {
    |s.log| <= |t.log| && forall i :: |s.log| <= i < |t.log| ==> !t.log[i].command.Focus?
  }

  lemma NoFocusInEither(s: Session, u: Session, t: Session)
    requires s.log <= u.log <= t.log && NoFocus(s, u) && NoFocus(u, t)
    ensures NoFocus(s, t)
  {
    forall i | |s.log| <= i < |t.log| ensures !t.log[i].command.Focus? {
      if i < |u.log| {
        assert t.log[i] == u.log[i];
      }
    }
  }

  method FallbackClassRestore(env: nat -> Fate, s: Session, pid: nat, start: nat, budget: nat, ghost d: nat)
    returns (shown: bool, target: Option<string>, t: Session)
    requires s.now <= ShowQueryDeadline(start, budget)
    ensures ShownByClass(env, s, t, pid, target, shown, budget, OverallDeadline(start, budget))
    ensures TimeByClass(env, s, start, budget, d) ==>
              target == Names(env(s.calls)) && AcceptedMoveTo(s, t, target.value) && ListAnswered(s, t)
  {
    target, t := LearnForClass(env, s, start, budget, d);
    ghost var u := t;
    if target.None? {
      NowhereByClass(env, s, t, pid, budget, OverallDeadline(start, budget));
      return false, None, t;
    }
    ghost var v;
    shown, v, t := MoveByClass(env, t, pid, target.value, OverallDeadline(start, budget), d);
    AfterClassMove(env, s, u, v, t, pid, target, shown, budget, OverallDeadline(start, budget));
    AcceptedByClass(s, u, v, t, target.value);
  }

  lemma NowhereByClass(env: nat -> Fate, s: Session, t: Session, pid: nat, budget: nat, overall: nat)
    requires Within(s, t, overall) && Only(s, t, IsQuery) && NoSafeNamed(env, s, t)
    ensures ShownByClass(env, s, t, pid, None, false, budget, overall)
  {
    NoMovesRestore(s, t, overall);
  }

  lemma AfterClassMove(env: nat -> Fate, s: Session, u: Session, v: Session, t: Session, pid: nat,
                       target: Option<string>, shown: bool, budget: nat, overall: nat)
    requires Within(s, u, overall) && Only(s, u, IsQuery) && target.Some? && Learned(env, s, u, target.value)
    requires IsSafeRestoreTarget(target.value) && u.now + ShowReserve(budget) / 2 <= overall
    requires Within(u, v, overall) && OnlyMovesTo(u, v, target.value)
    requires Within(v, t, overall) && Only(v, t, IsFocusOrQuery)
    requires Reaches(env, u, overall) ==> |v.log| > |u.log| && v.log[|u.log|].call == u.calls < v.calls
    requires Tried(env, u, v, Move(target.value, ByClass), overall)
    requires shown <==> FollowedUp(env, u, t, pid, target.value)
    requires shown ==> Tried(env, v, t, Focus(ByClass), overall) || NoTimeLeft(t, overall)
    requires !shown ==> Only(v, t, IsQuery)
    ensures ShownByClass(env, s, t, pid, target, shown, budget, overall)
  {
    PhasesRestore(s, u, v, t, target.value, overall);
    ChanceTaken(env, s, u, v, t, target.value, budget, overall);
    WithinTrans(s, u, v, overall, overall);
    TriedWider(env, s, u, v, t, Move(target.value, ByClass), overall);
    if Tried(env, v, t, Focus(ByClass), overall) {
      TriedWider(env, s, v, t, t, Focus(ByClass), overall);
    }
    FollowedUpKept(env, s, u, t, pid, target.value);
    if !shown {
      NoFocusInEither(s, u, v);
      NoFocusInEither(s, v, t);
    }
  }

  lemma AcceptedByClass(s: Session, u: Session, v: Session, t: Session, target: string)
    requires s.log <= u.log <= v.log <= t.log
    ensures AcceptedMoveTo(u, v, target) ==> AcceptedMoveTo(s, t, target)
    ensures ListAnswered(v, t) ==> ListAnswered(s, t)
  {
    if i :| |v.log| <= i < |t.log| && t.log[i].command == ListClients && t.log[i].answer.Reply? {
      assert |s.log| <= i;
    }
    AcceptedMoveJoins(s, u, v, target);
    AcceptedMoveJoins(s, v, t, target);
  }

  /** From here on all is answered within `d`, and the time left is enough for the fallback. */
  ghost predicate TimeByClass(env: nat -> Fate, s: Session, start: nat, budget: nat, d: nat) {
    && Quick(env, s, d) && SafeName(env(s.calls))
    && s.now + d < DeadlineLeavingRoomForMove(OverallDeadline(start, budget), budget)
    && s.now + 4 * d < OverallDeadline(start, budget)
  }

  /** The first listing only reads, so what the restore promises holds from the start of the show. */
  lemma AfterListing(env: nat -> Fate, s: Session, u: Session, t: Session, target: Option<string>, pid: nat,
                     overall: nat, budget: nat)
    requires Within(s, u, overall) && Only(s, u, IsList) && Restored(u, t, target, overall)
    requires target.Some? ==> MoveGetsItsChance(env, u, t, target.value, budget)
    ensures Restored(s, t, target, overall)
    ensures target.Some? ==> MoveGetsItsChance(env, s, t, target.value, budget)
    ensures target.Some? ==> (AcceptedMoveTo(s, t, target.value) <==> AcceptedMoveTo(u, t, target.value))
    ensures target.Some? ==> (FollowedUp(env, s, t, pid, target.value) <==> FollowedUp(env, u, t, pid, target.value))
  {
    WithinTrans(s, u, t, overall, overall);
    forall i | |s.log| <= i < |u.log| ensures t.log[i] == u.log[i] && IsQuery(t.log[i].command) {
    }
    if target.Some? {
      ChanceKept(env, s, u, t, target.value, budget);
      NoMoveAccepted(s, u, target.value);
      AcceptedMoveJoins(s, u, t, target.value);
      FollowedUpKept(env, s, u, t, pid, target.value);
    }
  }

  lemma NoneNamedKept(env: nat -> Fate, s: Session, u: Session, t: Session)
    requires s.log <= u.log <= t.log && NoSafeNamed(env, u, t) && Only(s, u, IsList)
    ensures NoSafeNamed(env, s, t)
  {
    forall i, target | |s.log| <= i < |t.log|
      ensures LearnedAt(env, t.log[i], target) ==> !IsSafeRestoreTarget(target)
    {
      if i < |u.log| {
        assert t.log[i] == u.log[i] && IsList(u.log[i].command);
      }
    }
  }

  predicate IsList(c: Command) { c.ListClients? }

  /** What a show owes, by what the first listing said. */
  ghost predicate Shown(env: nat -> Fate, s: Session, t: Session, pid: nat, budget: nat, overall: nat,
                        listed: MainWindowsRead, target: Option<string>, shown: bool)
  {
    match listed
    case Absent => !shown && target.None? && Only(s, t, IsList) && Restored(s, t, target, overall)
    case Ready(windows) => ShownByAddress(env, s, t, windows, target, shown, budget, overall)
    case Unread => ShownByClass(env, s, t, pid, target, shown, budget, overall)
  }

  /** The windows listed were all moved onto the workspace the monitors named. */
  ghost predicate ShownAll(env: nat -> Fate, s: Session, t: Session, windows: seq<Client>, target: Option<string>,
                           shown: bool)
  {
    shown && target.Some? && target == Names(env(1)) && AllMoved(s, t, windows, target.value)
  }

  /** The window class was moved onto the workspace the monitors named, and a list to confirm it was read. */
  ghost predicate MovedByClass(env: nat -> Fate, s: Session, t: Session, target: Option<string>) {
    target.Some? && target == Names(env(1)) && AcceptedMoveTo(s, t, target.value) && ListAnswered(s, t)
  }

  /** What showing one by one owes, it owes from the start of the show. */
  lemma ByAddressAfterListing(env: nat -> Fate, s: Session, u: Session, t: Session, pid: nat, listed: MainWindowsRead,
                              target: Option<string>, shown: bool, budget: nat, overall: nat)
    requires Within(s, u, overall) && Only(s, u, IsList) && listed.Ready?
    requires ShownByAddress(env, u, t, listed.windows, target, shown, budget, overall)
    ensures Restored(s, t, target, overall) && Shown(env, s, t, pid, budget, overall, listed, target, shown)
    ensures target.Some? && AllMoved(u, t, listed.windows, target.value) ==>
              AllMoved(s, t, listed.windows, target.value)
    ensures AllFocused(u, t, listed.windows) ==> AllFocused(s, t, listed.windows)
  {
    var windows := listed.windows;
    AfterListing(env, s, u, t, target, 0, overall, budget);
    if target.Some? {
      AllTriedWider(env, s, u, t, t, windows, target, overall);
      if AllMoved(u, t, windows, target.value) {
        AllMovedKept(s, u, t, t, windows, target.value);
      }
    } else {
      NoneNamedKept(env, s, u, t);
    }
    if AllTried(env, u, t, windows, None, overall) {
      AllTriedWider(env, s, u, t, t, windows, None, overall);
    }
    if AllFocused(u, t, windows) {
      AllFocusedKept(s, u, t, windows);
    }
  }

  /** The same for showing by class. */
  lemma ByClassAfterListing(env: nat -> Fate, s: Session, u: Session, t: Session, pid: nat, listed: MainWindowsRead,
                            target: Option<string>, shown: bool, budget: nat, overall: nat)
    requires Within(s, u, overall) && Only(s, u, IsList) && listed.Unread?
    requires ShownByClass(env, u, t, pid, target, shown, budget, overall)
    ensures Restored(s, t, target, overall) && Shown(env, s, t, pid, budget, overall, listed, target, shown)
    ensures ListAnswered(u, t) ==> ListAnswered(s, t)
    ensures target.Some? && AcceptedMoveTo(u, t, target.value) ==> AcceptedMoveTo(s, t, target.value)
  {
    AfterListing(env, s, u, t, target, pid, overall, budget);
    if target.Some? {
      TriedWider(env, s, u, t, t, Move(target.value, ByClass), overall);
    } else {
      NoneNamedKept(env, s, u, t);
    }
    if Tried(env, u, t, Focus(ByClass), overall) {
      TriedWider(env, s, u, t, t, Focus(ByClass), overall);
    }
    if !shown {
      NoFocusInEither(s, u, t);
    }
    if i :| |u.log| <= i < |t.log| && t.log[i].command == ListClients && t.log[i].answer.Reply? {
      assert |s.log| <= i;
    }
  }

  lemma NothingListed(env: nat -> Fate, s: Session, t: Session, pid: nat, listed: MainWindowsRead,
                      target: Option<string>, shown: bool, budget: nat, overall: nat)
    requires Within(s, t, overall) && Only(s, t, IsList) && listed.Absent? && target.None? && !shown
    ensures Restored(s, t, target, overall) && Shown(env, s, t, pid, budget, overall, listed, target, shown)
  {
    NoMovesRestore(s, t, overall);
  }

  method ShowMainWindowsWithin(env: nat -> Fate, start: nat, budget: nat, pid: nat, dialect: Dialect,
                               legacyRules: bool, isHyprland: bool, ghost d: nat)
    returns (shown: bool, listed: MainWindowsRead, target: Option<string>, ghost s: Session, t: Session)
    ensures s == Session(start, 0, dialect, legacyRules, [])
    ensures !isHyprland ==> !shown && target.None? && t == s
    ensures isHyprland ==> FirstListing(env, s, pid, ShowQueryDeadline(start, budget), listed)
    ensures isHyprland ==> Restored(s, t, target, OverallDeadline(start, budget))
    ensures isHyprland ==> Shown(env, s, t, pid, budget, OverallDeadline(start, budget), listed, target, shown)
    // With answers in time: every listed window is moved, and focused when there is time for that too.
    ensures isHyprland && QuickShow(env, s, budget, d, 0) ==> (listed.Ready? <==> ListsMain(env(0), pid))
    ensures isHyprland && listed.Ready? && QuickShow(env, s, budget, d, |listed.windows|) ==>
              ShownAll(env, s, t, listed.windows, target, shown)
    ensures isHyprland && listed.Ready? && QuickShow(env, s, budget, d, Twice(|listed.windows|)) ==>
              AllFocused(s, t, listed.windows)
    // With answers in time but for the first list.
    ensures isHyprland && listed.Unread? && QuickFallback(env, s, budget, d) ==> MovedByClass(env, s, t, target)
  {
    t := Session(start, 0, dialect, legacyRules, []);
    s := t;
    shown, target := false, None;
    if !isHyprland {
      listed := Absent;
      return;
    }
    DeadlinesLeaveRoom(start, budget);
    listed, t := ReadMainWindows(env, t, pid, ShowQueryDeadline(start, budget));
    ghost var u := t;
    WithinLater(s, u, ShowQueryDeadline(start, budget), OverallDeadline(start, budget));
    QuickListing(env, s, u, pid, start, budget, d);
    match listed {
      case Absent =>
        NothingListed(env, s, t, pid, listed, target, shown, budget, OverallDeadline(start, budget));
      case Ready(_) =>
        shown, target, t := RestoreAddressedWindows(env, t, listed.windows, start, budget, d);
        ByAddressAfterListing(env, s, u, t, pid, listed, target, shown, budget, OverallDeadline(start, budget));
      case Unread =>
        shown, target, t := FallbackClassRestore(env, t, pid, start, budget, d);
        ByClassAfterListing(env, s, u, t, pid, listed, target, shown, budget, OverallDeadline(start, budget));
    }
  }

  /** The listing is the first call, and says which of the three ways the show takes. */
  ghost predicate FirstListing(env: nat -> Fate, s: Session, pid: nat, deadline: nat, listed: MainWindowsRead) {
    var answer := Call(env, s, ListClients, false, deadline).0;
    match listed
    case Unread => !answer.Reply?
    case Absent => answer.Reply? && !ListsMain(env(s.calls), pid)
    case Ready(windows) =>
      answer.Reply? && ListsMain(env(s.calls), pid) && windows == MainWindows(env(s.calls).clients.value, pid)
  }

  /** Every call is answered within `d`, the monitors safely, and the budget is enough for two queries and
      `n` dispatches. */
  ghost predicate QuickShow(env: nat -> Fate, s: Session, budget: nat, d: nat, n: nat) {
    Quick(env, s, d) && SafeName(env(1)) && 2 * d < budget - ShowReserve(budget) && 2 * d + TimeFor(n, d) < budget
  }

  /** Every call but the first is answered within `d`, the monitors safely, and the reserve is enough for
      the fallback. */
  ghost predicate QuickFallback(env: nat -> Fate, s: Session, budget: nat, d: nat) {
    Quick(env, s.(calls := 1), d) && SafeName(env(1)) && 4 * d < ShowReserve(budget) / 2
  }

  lemma QuickListing(env: nat -> Fate, s: Session, u: Session, pid: nat, start: nat, budget: nat, d: nat)
    requires s.now == start && s.calls == 0
    requires u == Call(env, s, ListClients, false, ShowQueryDeadline(start, budget)).1
    ensures forall n: nat :: QuickShow(env, s, budget, d, n) ==>
                               && TimeTo(env, u, start, budget, d, n)
                               && Call(env, s, ListClients, false, ShowQueryDeadline(start, budget)).0.Reply?
    ensures QuickFallback(env, s, budget, d) ==> TimeByClass(env, u, start, budget, d)
    ensures u.calls == 1
  {
    if Quick(env, s, d) && 2 * d < budget - ShowReserve(budget) {
      QuickCall(env, s, ListClients, false, ShowQueryDeadline(start, budget), d);
    }
  }
}
