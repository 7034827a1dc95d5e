/** Hyprland as a state machine behind a socket that may lose commands, answer late or not at all: a
    command that was written and went unanswered may take effect at once, at any later call, or never.
    Refused commands have no effect and nobody else changes the compositor while a hide runs. */
module Compositor {
  import opened HyprlandIpc

  // ----- The compositor

  /** A monitor and the special workspace shown on it ("" for none). */
  datatype Monitor = Monitor(focused: bool, special: string)

  datatype Command = Park(address: nat) | Toggle

  /** `pending` commands were written and may still take effect; `applied` ones have. */
  datatype World = World(
    clients: seq<Client>,
    monitors: seq<Monitor>,
    pending: multiset<Command>,
    applied: multiset<Command>)

  predicate Shows(m: Monitor) { m.special == HIDDEN_WORKSPACE }

  predicate Anywhere(ms: seq<Monitor>) { exists i :: 0 <= i < |ms| && Shows(ms[i]) }

  predicate OnFocused(ms: seq<Monitor>) { exists i :: 0 <= i < |ms| && ms[i].focused && Shows(ms[i]) }

  function ParkClient(c: Client, address: nat): Client {
    if c.address == address then c.(workspace := HIDDEN_WORKSPACE) else c
  }

  /** Toggling closes the overlay on the focused monitor, or brings it there. */
  function ToggleMonitor(m: Monitor, close: bool): Monitor {
    if m.focused then m.(special := if close then "" else HIDDEN_WORKSPACE)
    else if Shows(m) && !close then m.(special := "")
    else m
  }

  function Apply(w: World, c: Command): World {
    match c
    case Park(a) =>
      w.(clients := seq(|w.clients|, i requires 0 <= i < |w.clients| => ParkClient(w.clients[i], a)),
         applied := w.applied + multiset{c})
    case Toggle =>
      var close := OnFocused(w.monitors);
      w.(monitors := seq(|w.monitors|, i requires 0 <= i < |w.monitors| => ToggleMonitor(w.monitors[i], close)),
         applied := w.applied + multiset{c})
  }

  /** A pending command takes effect. */
  function Land(w: World, c: Command): World {
    if c in w.pending then Apply(w.(pending := w.pending - multiset{c}), c) else w
  }

  function Settle(w: World, lands: seq<Command>): World
    decreases |lands|
  {
    if lands == [] then w else Settle(Land(w, lands[0]), lands[1..])
  }

  /** How often `c` has taken effect or still may. */
  function Charge(w: World, c: Command): nat { w.applied[c] + w.pending[c] }

  /** A parking moves the one window, and nothing else. */
  lemma ParkMovesOne(w: World, a: nat)
    ensures var v := Apply(w, Park(a));
            && |v.clients| == |w.clients| && v.monitors == w.monitors && v.pending == w.pending
            && forall i :: 0 <= i < |w.clients| ==>
                 v.clients[i] == if w.clients[i].address == a then w.clients[i].(workspace := HIDDEN_WORKSPACE)
                                 else w.clients[i]
  {
  }

  /** A toggle takes the overlay away where it is on the focused monitor, and otherwise brings it there from
      wherever it was; the other monitors and the windows stay as they are. */
  lemma ToggleTurns(w: World)
    ensures var v := Apply(w, Toggle);
            && |v.monitors| == |w.monitors| && v.clients == w.clients && v.pending == w.pending
            && forall i :: 0 <= i < |w.monitors| ==>
                 v.monitors[i].special ==
                 if w.monitors[i].focused then (if OnFocused(w.monitors) then "" else HIDDEN_WORKSPACE)
                 else if w.monitors[i].special == HIDDEN_WORKSPACE && !OnFocused(w.monitors) then ""
                 else w.monitors[i].special
  {
  }

  /** What is read off a list of monitors. */
  lemma OverlayReadings(ms: seq<Monitor>)
    ensures Anywhere(ms) <==> exists m :: m in ms && m.special == HIDDEN_WORKSPACE
    ensures OnFocused(ms) <==> exists m :: m in ms && m.focused && m.special == HIDDEN_WORKSPACE
  {
  }

  // ----- One socket call

  /** An answer says one thing to a command in Lua form and another to one in legacy form, and to a
      query something that parses or not. */
  datatype Delivery =
    | Lost
    | Silent(landed: bool)
    | Answered(lua: DispatchReply, legacy: DispatchReply, parses: bool)
  {
    function To(legacyForm: bool): DispatchReply
      requires Answered?
    { if legacyForm then legacy else lua }
  }

  /** What the environment does to one call: the late commands that land before it, and the call's own end. */
  datatype Fate = Fate(lands: seq<Command>, delivery: Delivery)

  datatype Written = Written(command: Command, legacy: bool)

  /** The client's view: the compositor, the calls made, the global dialect and the commands written. */
  datatype Session = Session(world: World, calls: nat, dialect: Dialect, legacyRules: bool, written: seq<Written>)

  predicate KnownLegacy(s: Session) { s.dialect == DialectLegacy || s.legacyRules }

  function Result(d: Delivery, legacy: bool): IpcResult {
    match d
    case Lost => NotSent
    case Silent(_) => NoReply
    case Answered(_, _, _) => Reply(d.To(legacy))
  }

  function Deliver(w: World, c: Command, d: Delivery, legacy: bool): World {
    match d
    case Lost => w
    case Silent(landed) => if landed then Apply(w, c) else w.(pending := w.pending + multiset{c})
    case Answered(_, _, _) => if d.To(legacy) == Ok then Apply(w, c) else w
  }

  /** The compositor as the next call finds it. */
  function Reached(env: nat -> Fate, s: Session): World { Settle(s.world, env(s.calls).lands) }

  function Call(env: nat -> Fate, s: Session, c: Command, legacy: bool): (r: (IpcResult, Session)) {
    var d := env(s.calls).delivery;
    (Result(d, legacy), s.(world := Deliver(Reached(env, s), c, d, legacy), calls := s.calls + 1,
                   written := if d == Lost then s.written else s.written + [Written(c, legacy)]))
  }

  /** A command that went unanswered has taken effect already, or nothing has changed yet and it does when it lands. */
  lemma UnansweredCommand(w: World, c: Command, legacy: bool)
    ensures Deliver(w, c, Silent(true), legacy) == Apply(w, c)
    ensures var v := Deliver(w, c, Silent(false), legacy);
            v.clients == w.clients && v.monitors == w.monitors && v.applied == w.applied && Land(v, c) == Apply(w, c)
  {
    var v := Deliver(w, c, Silent(false), legacy);
    assert v.pending - multiset{c} == w.pending;
  }

  predicate Readable(d: Delivery) { d.Answered? && d.parses }

  /** A query has no effect of its own. Its answer is read only when complete and well formed. */
  function Query(env: nat -> Fate, s: Session): (r: (bool, Session)) {
    (Readable(env(s.calls).delivery), s.(world := Reached(env, s), calls := s.calls + 1))
  }

  // ----- What a hide may do to the compositor

  predicate ClientKept(a: Client, b: Client) { b == a || b == a.(workspace := HIDDEN_WORKSPACE) }

  predicate MonitorKept(a: Monitor, b: Monitor) { b == a || (Shows(a) && b == a.(special := "")) }

  /** Windows may only move to the hidden workspace, and the focus stays. When it is `safe`, our overlay
      may only close: that is so unless the toggle of an earlier hide is still on its way. */
  ghost predicate Calmer(safe: bool, w: World, v: World) {
    && |v.clients| == |w.clients|
    && |v.monitors| == |w.monitors|
    && (forall i :: 0 <= i < |w.clients| ==> ClientKept(w.clients[i], v.clients[i]))
    && (forall i :: 0 <= i < |w.monitors| ==> v.monitors[i].focused == w.monitors[i].focused)
    && (safe ==> forall i :: 0 <= i < |w.monitors| ==> MonitorKept(w.monitors[i], v.monitors[i]))
  }

  /** Addresses are unique, one monitor has focus, and a special workspace is shown on one monitor. */
  ghost predicate WellFormed(w: World) {
    && (forall i, j :: 0 <= i < j < |w.clients| ==> w.clients[i].address != w.clients[j].address)
    && (forall i, j :: 0 <= i < j < |w.monitors| ==> !(w.monitors[i].focused && w.monitors[j].focused))
    && (forall i, j :: 0 <= i < j < |w.monitors| ==> !(Shows(w.monitors[i]) && Shows(w.monitors[j])))
  }

  /** At most one toggle is on its way, and only towards an overlay it closes. */
  ghost predicate ToggleSafe(w: World) {
    w.pending[Toggle] <= 1 && (w.pending[Toggle] == 1 ==> OnFocused(w.monitors))
  }

  ghost predicate Sound(safe: bool, w: World) { WellFormed(w) && (safe ==> ToggleSafe(w)) }

  lemma CalmerTrans(safe: bool, u: World, v: World, w: World)
    requires Calmer(safe, u, v) && Calmer(safe, v, w)
    ensures Calmer(safe, u, w)
  {
    forall i | 0 <= i < |u.clients| ensures ClientKept(u.clients[i], w.clients[i]) {
      assert ClientKept(u.clients[i], v.clients[i]) && ClientKept(v.clients[i], w.clients[i]);
    }
    forall i | 0 <= i < |u.monitors|
      ensures w.monitors[i].focused == u.monitors[i].focused
      ensures safe ==> MonitorKept(u.monitors[i], w.monitors[i])
    {
      assert v.monitors[i].focused == u.monitors[i].focused;
      assert safe ==> MonitorKept(u.monitors[i], v.monitors[i]) && MonitorKept(v.monitors[i], w.monitors[i]);
    }
  }

  /** A closed overlay stays closed, on every monitor. */
  lemma CalmerNeverOpens(w: World, v: World)
    requires Calmer(true, w, v)
    ensures Anywhere(v.monitors) ==> Anywhere(w.monitors)
    ensures OnFocused(v.monitors) ==> OnFocused(w.monitors)
  {
    if Anywhere(v.monitors) {
      var i :| 0 <= i < |v.monitors| && Shows(v.monitors[i]);
      assert MonitorKept(w.monitors[i], v.monitors[i]);
    }
    if OnFocused(v.monitors) {
      var i :| 0 <= i < |v.monitors| && v.monitors[i].focused && Shows(v.monitors[i]);
      assert MonitorKept(w.monitors[i], v.monitors[i]);
    }
  }

  lemma ParkIsCalm(w: World, a: nat)
    ensures Calmer(true, w, Apply(w, Park(a)))
  {
    var v := Apply(w, Park(a));
    forall i | 0 <= i < |w.clients| ensures ClientKept(w.clients[i], v.clients[i]) {
      assert v.clients[i] == ParkClient(w.clients[i], a);
    }
  }

  /** A toggle is safe exactly where the code sends it: it closes the overlay on the focused monitor. */
  lemma ToggleCloses(w: World)
    requires WellFormed(w) && OnFocused(w.monitors)
    ensures Calmer(true, w, Apply(w, Toggle)) && !Anywhere(Apply(w, Toggle).monitors)
  {
    var v := Apply(w, Toggle);
    var f :| 0 <= f < |w.monitors| && w.monitors[f].focused && Shows(w.monitors[f]);
    forall i | 0 <= i < |w.monitors|
      ensures MonitorKept(w.monitors[i], v.monitors[i]) && !Shows(v.monitors[i])
    {
      assert v.monitors[i] == ToggleMonitor(w.monitors[i], true);
      if i < f {
        assert !w.monitors[i].focused && !Shows(w.monitors[i]);
      } else if f < i {
        assert !w.monitors[i].focused && !Shows(w.monitors[i]);
      }
    }
    forall i | 0 <= i < |w.clients| ensures ClientKept(w.clients[i], v.clients[i]) {
    }
  }

  /** After the toggle was applied, late commands can reopen the overlay exactly when an
      earlier toggle is still on its way. */
  lemma ClosedForGoodIff(w: World)
    requires WellFormed(w) && OnFocused(w.monitors)
    ensures (forall lands :: !Anywhere(Settle(Apply(w, Toggle), lands).monitors)) <==> w.pending[Toggle] == 0
  {
    var v := Apply(w, Toggle);
    ToggleCloses(w);
    if w.pending[Toggle] == 0 {
      forall lands ensures !Anywhere(Settle(v, lands).monitors) {
        SettleKeepsMonitors(v, lands);
      }
    } else {
      TwoTogglesReopen(w);
      LeftoverReopens(v);
    }
  }

  /** A toggle still on its way may land last. */
  lemma LeftoverReopens(v: World)
    requires v.pending[Toggle] > 0 && OnFocused(Apply(v, Toggle).monitors)
    ensures exists lands :: Anywhere(Settle(v, lands).monitors)
  {
    var lands := [Toggle];
    var u := Land(v, Toggle);
    assert lands[1..] == [];
    assert Settle(u, []) == u;
    assert u.monitors == Apply(v, Toggle).monitors;
    assert Anywhere(Settle(v, lands).monitors);
  }

  /** Two toggles undo each other: the second one opens the overlay again. */
  lemma TwoTogglesReopen(w: World)
    requires WellFormed(w) && OnFocused(w.monitors)
    ensures OnFocused(Apply(Apply(w, Toggle), Toggle).monitors)
  {
    ToggleCloses(w);
    var v := Apply(w, Toggle);
    var f :| 0 <= f < |w.monitors| && w.monitors[f].focused && Shows(w.monitors[f]);
    assert v.monitors[f].focused;
    assert !OnFocused(v.monitors);
    assert Apply(v, Toggle).monitors[f] == ToggleMonitor(v.monitors[f], false);
  }

  /** A toggle leaves the windows and the focus alone and shows the overlay on one monitor at most. */
  lemma ToggleKeepsForm(w: World)
    requires WellFormed(w)
    ensures WellFormed(Apply(w, Toggle)) && Calmer(false, w, Apply(w, Toggle))
  {
    var v := Apply(w, Toggle);
    var close := OnFocused(w.monitors);
    forall i | 0 <= i < |w.monitors|
      ensures v.monitors[i].focused == w.monitors[i].focused
      ensures close ==> !Shows(v.monitors[i])
      ensures !close ==> (Shows(v.monitors[i]) <==> w.monitors[i].focused)
    {
      assert v.monitors[i] == ToggleMonitor(w.monitors[i], close);
      if close {
        ToggleCloses(w);
      }
    }
    forall i | 0 <= i < |w.clients| ensures ClientKept(w.clients[i], v.clients[i]) {
    }
  }

  lemma ParkKeepsForm(w: World, a: nat)
    requires WellFormed(w)
    ensures WellFormed(Apply(w, Park(a)))
  {
    var v := Apply(w, Park(a));
    forall i | 0 <= i < |w.clients| ensures v.clients[i].address == w.clients[i].address {
      assert v.clients[i] == ParkClient(w.clients[i], a);
    }
  }

  lemma LandKeeps(safe: bool, w: World, c: Command)
    requires Sound(safe, w)
    ensures Sound(safe, Land(w, c)) && Calmer(safe, w, Land(w, c))
    ensures forall d :: Charge(Land(w, c), d) == Charge(w, d)
    ensures Land(w, c).pending <= w.pending
  {
    if c in w.pending {
      var u := w.(pending := w.pending - multiset{c});
      match c {
        case Park(a) =>
          ParkIsCalm(u, a);
          ParkKeepsForm(u, a);
        case Toggle =>
          ToggleKeepsForm(u);
          if safe {
            ToggleCloses(u);
          }
      }
    }
  }

  lemma {:induction false} SettleKeeps(safe: bool, w: World, lands: seq<Command>)
    requires Sound(safe, w)
    ensures Sound(safe, Settle(w, lands)) && Calmer(safe, w, Settle(w, lands))
    ensures forall d :: Charge(Settle(w, lands), d) == Charge(w, d)
    ensures Settle(w, lands).pending <= w.pending
    decreases |lands|
  {
    if lands != [] {
      LandKeeps(safe, w, lands[0]);
      var v := Land(w, lands[0]);
      SettleKeeps(safe, v, lands[1..]);
      CalmerTrans(safe, w, v, Settle(v, lands[1..]));
    }
  }

  /** With no toggle on its way the monitors do not change by themselves. */
  lemma {:induction false} SettleKeepsMonitors(w: World, lands: seq<Command>)
    requires w.pending[Toggle] == 0
    ensures Settle(w, lands).monitors == w.monitors && Settle(w, lands).pending[Toggle] == 0
    decreases |lands|
  {
    if lands != [] {
      LandKeepsMonitors(w, lands[0]);
      SettleKeepsMonitors(Land(w, lands[0]), lands[1..]);
    }
  }

  lemma LandKeepsMonitors(w: World, c: Command)
    requires w.pending[Toggle] == 0
    ensures Land(w, c).monitors == w.monitors && Land(w, c).pending[Toggle] == 0
  {
  }

  // ----- Dispatching one command

  ghost predicate MayDispatch(safe: bool, w: World, c: Command) {
    safe && c == Toggle ==> w.pending[Toggle] == 0 && OnFocused(w.monitors)
  }

  /** The window, or the overlay, is where the command puts it. */
  ghost predicate Done(w: World, c: Command) {
    match c
    case Park(a) => forall i :: 0 <= i < |w.clients| && w.clients[i].address == a ==>
                                  w.clients[i].workspace == HIDDEN_WORKSPACE
    case Toggle => !Anywhere(w.monitors)
  }

  ghost predicate Charged(w: World, v: World, c: Command, n: nat) {
    forall d :: Charge(v, d) == Charge(w, d) + if d == c then n else 0
  }

  /** The overlay is where it was and no toggle is on its way. */
  ghost predicate SameOverlay(w: World, v: World) { v.monitors == w.monitors && v.pending[Toggle] == 0 }

  lemma DeliverKeeps(safe: bool, w: World, c: Command, d: Delivery, legacy: bool)
    requires Sound(safe, w) && MayDispatch(safe, w, c)
    ensures var o := OutcomeOf(Result(d, legacy)); var v := Deliver(w, c, d, legacy);
            && Sound(safe, v) && Calmer(safe, w, v)
            && Charged(w, v, c, if MayHaveLanded(o) then 1 else 0)
            && (o == OutAccepted && (safe || c.Park?) ==> Done(v, c))
            && (o == OutAccepted ==> v.pending == w.pending)
            && (!MayHaveLanded(o) ==> v == w)
  {
    ApplyKeeps(safe, w, c);
  }

  lemma ApplyKeeps(safe: bool, w: World, c: Command)
    requires Sound(safe, w) && MayDispatch(safe, w, c)
    ensures Sound(safe, Apply(w, c)) && Calmer(safe, w, Apply(w, c)) && (safe || c.Park? ==> Done(Apply(w, c), c))
    ensures Charged(w, Apply(w, c), c, 1)
  {
    match c {
      case Toggle =>
        ToggleKeepsForm(w);
        if safe {
          ToggleCloses(w);
        }
      case Park(a) =>
        ParkIsCalm(w, a);
        ParkKeepsForm(w, a);
    }
  }

  lemma SettleKeepsDispatch(safe: bool, w: World, c: Command, lands: seq<Command>)
    requires Sound(safe, w) && MayDispatch(safe, w, c)
    ensures MayDispatch(safe, Settle(w, lands), c)
  {
    if safe && c == Toggle {
      SettleKeepsMonitors(w, lands);
    }
  }

  lemma CallKeeps(safe: bool, env: nat -> Fate, s: Session, c: Command, legacy: bool)
    requires Sound(safe, s.world) && MayDispatch(safe, s.world, c)
    ensures var (r, t) := Call(env, s, c, legacy);
            && Sound(safe, t.world) && Calmer(safe, s.world, t.world)
            && Charged(s.world, t.world, c, if MayHaveLanded(OutcomeOf(r)) then 1 else 0)
            && (OutcomeOf(r) == OutAccepted && (safe || c.Park?) ==> Done(t.world, c))
            && (OutcomeOf(r) != OutUnanswered ==> t.world.pending <= s.world.pending)
            && (!MayHaveLanded(OutcomeOf(r)) ==> MayDispatch(safe, t.world, c))
            && (c.Park? && s.world.pending[Toggle] == 0 ==> SameOverlay(s.world, t.world))
  {
    var w := Reached(env, s);
    var d := env(s.calls).delivery;
    SettleKeeps(safe, s.world, env(s.calls).lands);
    SettleKeepsDispatch(safe, s.world, c, env(s.calls).lands);
    if c.Park? && s.world.pending[Toggle] == 0 {
      SettleKeepsMonitors(s.world, env(s.calls).lands);
    }
    DeliverKeeps(safe, w, c, d, legacy);
    CalmerTrans(safe, s.world, w, Deliver(w, c, d, legacy));
  }

  /** Every call is answered, queries readably and commands with `ok` when they come in the one form the
      compositor speaks: always legacy, or always Lua with a client that does not take it for legacy. */
  ghost predicate Reliable(env: nat -> Fate, s: Session) {
    && (forall k :: Readable(env(k).delivery))
    && ((forall k :: env(k).delivery.Answered? ==> env(k).delivery.legacy == Ok)
        || (!KnownLegacy(s) && forall k :: env(k).delivery.Answered? ==> env(k).delivery.lua == Ok))
  }

  /** How call `k` ends for a command written in this form. */
  function Ending(env: nat -> Fate, k: nat, legacy: bool): IpcResult { Result(env(k).delivery, legacy) }

  /** The Lua form comes first and is answered with a rejection. */
  predicate LuaRejected(env: nat -> Fate, s: Session) {
    && !KnownLegacy(s)
    && Ending(env, s.calls, false).Reply? && Ending(env, s.calls, false).reply != Ok
  }

  /** The answer a dispatch owes: that of its first call, or after a rejected Lua form that of the legacy
      call that must follow, where a call never written leaves the rejection standing. */
  ghost predicate RightAnswer(env: nat -> Fate, s: Session, t: Session, outcome: MoveOutcome) {
    if LuaRejected(env, s) then
      && t.calls == s.calls + 2
      && match Ending(env, s.calls + 1, true)
         case NotSent => outcome == OutRefused
         case NoReply => outcome == OutUnanswered
         case Reply(r) => outcome == if r == Ok then OutAccepted else OutRefused
    else
      && t.calls == s.calls + 1
      && outcome == OutcomeOf(Ending(env, s.calls, KnownLegacy(s)))
  }

  /** The dialect that worked is remembered. */
  ghost predicate Remembers(env: nat -> Fate, s: Session, t: Session, outcome: MoveOutcome) {
    && t.legacyRules == s.legacyRules
    && t.dialect == if outcome != OutAccepted then s.dialect
                    else if KnownLegacy(s) || LuaRejected(env, s) then DialectLegacy else DialectLua
  }

  lemma ReliableStays(env: nat -> Fate, s: Session, t: Session, outcome: MoveOutcome)
    requires Reliable(env, s) && RightAnswer(env, s, t, outcome) && Remembers(env, s, t, outcome)
    ensures outcome == OutAccepted && Reliable(env, t)
  {
    assert Readable(env(s.calls).delivery) && Readable(env(s.calls + 1).delivery);
  }

  /** The commands one dispatch wrote: the form that came first unless the call was lost, and the legacy
      form after an answered rejection of Lua only. */
  ghost predicate Wrote(env: nat -> Fate, s: Session, t: Session, c: Command) {
    t.written == s.written
                 + (if Ending(env, s.calls, KnownLegacy(s)).NotSent? then [] else [Written(c, KnownLegacy(s))])
                 + (if LuaRejected(env, s) && !Ending(env, s.calls + 1, true).NotSent? then [Written(c, true)] else [])
  }

  ghost predicate Dispatched(safe: bool, s: Session, t: Session, c: Command, outcome: MoveOutcome) {
    && Sound(safe, t.world) && Calmer(safe, s.world, t.world)
    && Charged(s.world, t.world, c, if MayHaveLanded(outcome) then 1 else 0)
    && (outcome == OutAccepted && (safe || c.Park?) ==> Done(t.world, c))
    && (outcome != OutUnanswered ==> t.world.pending <= s.world.pending)
    && (c.Park? && s.world.pending[Toggle] == 0 ==> SameOverlay(s.world, t.world))
  }

  method LegacyCall(ghost safe: bool, env: nat -> Fate, s: Session, c: Command)
    returns (outcome: MoveOutcome, t: Session)
    requires Sound(safe, s.world) && MayDispatch(safe, s.world, c)
    ensures Dispatched(safe, s, t, c, outcome)
    ensures t.written == if outcome == OutNotSent then s.written else s.written + [Written(c, true)]
    ensures t.dialect == if outcome == OutAccepted then DialectLegacy else s.dialect
    ensures t.legacyRules == s.legacyRules && t.calls == s.calls + 1
    ensures outcome == OutcomeOf(Ending(env, s.calls, true))
  {
    CallKeeps(safe, env, s, c, true);
    var call := Call(env, s, c, true);
    outcome := OutcomeOf(call.0);
    t := if outcome == OutAccepted then call.1.(dialect := DialectLegacy) else call.1;
  }

  /** A Lua call answered with a rejection left no charge: the legacy call is the only one that counts. */
  lemma AfterRejection(safe: bool, s: Session, u: Session, t: Session, c: Command, second: MoveOutcome)
    requires Dispatched(safe, s, u, c, OutRefused) && Dispatched(safe, u, t, c, second)
    ensures Dispatched(safe, s, t, c, AfterRefusedLua(second))
  {
    CalmerTrans(safe, s.world, u.world, t.world);
  }

  method DispatchMoveThenLegacy(ghost safe: bool, env: nat -> Fate, s: Session, c: Command)
    returns (outcome: MoveOutcome, t: Session)
    requires Sound(safe, s.world) && MayDispatch(safe, s.world, c)
    ensures Dispatched(safe, s, t, c, outcome)
    ensures outcome == OutNotSent <==> t.written == s.written
    ensures Wrote(env, s, t, c)
    ensures RightAnswer(env, s, t, outcome)
    ensures Remembers(env, s, t, outcome)
  {
    if KnownLegacy(s) {
      outcome, t := LegacyCall(safe, env, s, c);
      return;
    }
    CallKeeps(safe, env, s, c, false);
    var lua := Call(env, s, c, false);
    outcome := OutcomeOf(lua.0);
    t := lua.1;
    if outcome == OutAccepted {
      t := t.(dialect := DialectLua);
    } else if outcome == OutRefused {
      ghost var u := t;
      outcome, t := LegacyCall(safe, env, t, c);
      AfterRejection(safe, s, u, t, c, outcome);
      if outcome != OutNotSent {
        assert t.written == s.written + [Written(c, false), Written(c, true)];
      }
      outcome := AfterRefusedLua(outcome);
    }
  }
}
