/** Parking the main window on the hidden workspace: moves, a check, at most one toggle, a last check. */
module HideProtocol {
  import opened Compositor
  import opened HyprlandIpc
  import opened Wrappers

  // ----- Reading the result

  datatype HideState = Hidden | OverlayOnFocused | NotHidden | Unknown

  predicate Parked(clients: seq<Client>, address: nat) {
    exists i :: 0 <= i < |clients| && clients[i].address == address && clients[i].workspace == HIDDEN_WORKSPACE
  }

  predicate AllParked(clients: seq<Client>, addresses: seq<nat>) {
    |addresses| > 0 && forall a :: a in addresses ==> Parked(clients, a)
  }

  function ClassifyHide(clients: Option<seq<Client>>, addresses: seq<nat>, monitors: Option<seq<Monitor>>): HideState {
    if clients.None? || monitors.None? then Unknown
    else if !AllParked(clients.value, addresses) then NotHidden
    else if !Anywhere(monitors.value) then Hidden
    else if OnFocused(monitors.value) then OverlayOnFocused
    else NotHidden
  }

  function HideVerdict(state: HideState, moveMayHaveLanded: bool): bool {
    state == Hidden || (state == Unknown && moveMayHaveLanded)
  }

  function Addresses(windows: seq<Client>): (r: seq<nat>)
    ensures |r| == |windows|
    ensures forall i :: 0 <= i < |r| ==> r[i] == windows[i].address
  {
    seq(|windows|, i requires 0 <= i < |windows| => windows[i].address)
  }

  /** Off screen: every main window of ours is parked and the overlay is shown nowhere. */
  ghost predicate OffScreen(w: World, pid: nat) {
    && (exists i :: 0 <= i < |w.clients| && IsMain(w.clients[i], pid))
    && (forall i :: 0 <= i < |w.clients| && IsMain(w.clients[i], pid) ==> w.clients[i].workspace == HIDDEN_WORKSPACE)
    && !Anywhere(w.monitors)
  }

  /** Nothing that is still on its way can bring a window back. */
  lemma OffScreenStays(w: World, pid: nat, lands: seq<Command>)
    requires Sound(true, w) && OffScreen(w, pid)
    ensures OffScreen(Settle(w, lands), pid)
  {
    var v := Settle(w, lands);
    SettleKeeps(true, w, lands);
    CalmerNeverOpens(w, v);
    forall i | 0 <= i < |w.clients| ensures ClientKept(w.clients[i], v.clients[i]) {
    }
    var i :| 0 <= i < |w.clients| && IsMain(w.clients[i], pid);
    assert ClientKept(w.clients[i], v.clients[i]);
    assert IsMain(v.clients[i], pid);
  }

  /** `addresses` are those of all main windows, and of no other. */
  ghost predicate Covers(w: World, pid: nat, addresses: seq<nat>) {
    && (forall i :: 0 <= i < |w.clients| ==> (IsMain(w.clients[i], pid) <==> w.clients[i].address in addresses))
    && (forall a :: a in addresses ==> HasAddress(w.clients, a))
  }

  ghost predicate HasAddress(clients: seq<Client>, a: nat) {
    exists i :: 0 <= i < |clients| && clients[i].address == a
  }

  lemma CoversKept(w: World, v: World, pid: nat, addresses: seq<nat>)
    requires Calmer(false, w, v) && Covers(w, pid, addresses)
    ensures Covers(v, pid, addresses)
  {
    forall i | 0 <= i < |v.clients|
      ensures IsMain(v.clients[i], pid) <==> v.clients[i].address in addresses
    {
      assert ClientKept(w.clients[i], v.clients[i]);
    }
    forall a | a in addresses ensures HasAddress(v.clients, a) {
      assert HasAddress(w.clients, a);
      var i :| 0 <= i < |w.clients| && w.clients[i].address == a;
      assert ClientKept(w.clients[i], v.clients[i]);
    }
  }

  /** The listed windows cover the main windows of the compositor they were read from. */
  lemma ListedCover(w: World, pid: nat)
    requires WellFormed(w)
    ensures Covers(w, pid, Addresses(MainWindows(w.clients, pid)))
  {
    var listed := MainWindows(w.clients, pid);
    var addresses := Addresses(listed);
    forall i | 0 <= i < |w.clients|
      ensures IsMain(w.clients[i], pid) <==> w.clients[i].address in addresses
    {
      if IsMain(w.clients[i], pid) {
        assert w.clients[i] in listed;
        var k :| 0 <= k < |listed| && listed[k] == w.clients[i];
        assert addresses[k] == w.clients[i].address;
      }
      if w.clients[i].address in addresses {
        var k :| 0 <= k < |addresses| && addresses[k] == w.clients[i].address;
        assert listed[k] in listed;
        var j :| 0 <= j < |w.clients| && w.clients[j] == listed[k];
        assert i == j;
      }
    }
    forall a | a in addresses ensures HasAddress(w.clients, a) {
      var k :| 0 <= k < |addresses| && addresses[k] == a;
      assert listed[k] in listed;
      var j :| 0 <= j < |w.clients| && w.clients[j] == listed[k];
    }
  }

  /** Reading every address parked means every main window is. */
  lemma ParkedMeansParked(w: World, pid: nat, addresses: seq<nat>)
    requires WellFormed(w) && Covers(w, pid, addresses) && AllParked(w.clients, addresses)
    ensures forall i :: 0 <= i < |w.clients| && IsMain(w.clients[i], pid) ==>
                          w.clients[i].workspace == HIDDEN_WORKSPACE
    ensures exists i :: 0 <= i < |w.clients| && IsMain(w.clients[i], pid)
  {
    forall i | 0 <= i < |w.clients| && IsMain(w.clients[i], pid)
      ensures w.clients[i].workspace == HIDDEN_WORKSPACE
    {
      assert Parked(w.clients, w.clients[i].address);
      var j :| 0 <= j < |w.clients| && w.clients[j].address == w.clients[i].address
               && w.clients[j].workspace == HIDDEN_WORKSPACE;
      assert i == j;
    }
    assert addresses[0] in addresses;
    assert Parked(w.clients, addresses[0]);
    var j :| 0 <= j < |w.clients| && w.clients[j].address == addresses[0];
    assert IsMain(w.clients[j], pid);
  }

  /** A main window that is not on the hidden workspace. */
  ghost predicate SomeOutside(w: World, pid: nat) {
    exists i :: 0 <= i < |w.clients| && IsMain(w.clients[i], pid) && w.clients[i].workspace != HIDDEN_WORKSPACE
  }

  /** Not reading every address parked means that a main window was outside, then and before. */
  lemma NotParkedMeansOutside(w: World, v: World, pid: nat, addresses: seq<nat>)
    requires Calmer(false, w, v) && Covers(v, pid, addresses) && addresses != [] && !AllParked(v.clients, addresses)
    ensures SomeOutside(w, pid)
  {
    var a :| a in addresses && !Parked(v.clients, a);
    assert HasAddress(v.clients, a);
    var i :| 0 <= i < |v.clients| && v.clients[i].address == a;
    assert ClientKept(w.clients[i], v.clients[i]);
    assert IsMain(v.clients[i], pid);
  }

  /** The last check failed to read the clients or the monitors. */
  ghost predicate LastReadFailed(env: nat -> Fate, t: Session) {
    t.calls >= 2 && !(Readable(env(t.calls - 2).delivery) && Readable(env(t.calls - 1).delivery))
  }

  /** Two reads, clients then monitors. A `Hidden` reading is still true when the second read is in,
      although late commands may land between the two. */
  method CheckHidden(ghost safe: bool, env: nat -> Fate, s: Session, pid: nat, addresses: seq<nat>)
    returns (state: HideState, t: Session)
    requires Sound(safe, s.world) && Covers(s.world, pid, addresses)
    ensures Sound(safe, t.world) && Calmer(safe, s.world, t.world)
    ensures forall c :: Charge(t.world, c) == Charge(s.world, c)
    ensures t.world.pending <= s.world.pending
    ensures s.world.pending[Toggle] == 0 ==> SameOverlay(s.world, t.world)
    ensures state == Hidden ==> OffScreen(t.world, pid)
    ensures state == OverlayOnFocused ==> OnFocused(t.world.monitors)
    ensures state == NotHidden && addresses != [] ==>
              SomeOutside(s.world, pid) || (Anywhere(t.world.monitors) && !OnFocused(t.world.monitors))
    ensures t.calls >= 2 && (state == Unknown <==> LastReadFailed(env, t))
    ensures t.written == s.written && t.dialect == s.dialect && t.legacyRules == s.legacyRules
    ensures t.calls == s.calls + 2
    ensures Reliable(env, s) && AllParked(s.world.clients, addresses) && s.world.pending[Toggle] == 0 ==>
              state == ClassifyHide(Some(s.world.clients), addresses, Some(s.world.monitors))
  {
    var first := Query(env, s);
    ghost var mid := first.1;
    QueriesKeep(safe, env, s);
    var clients := if first.0 then Some(first.1.world.clients) else None;
    var second := Query(env, first.1);
    t := second.1;
    var monitors := if second.0 then Some(t.world.monitors) else None;
    state := ClassifyHide(clients, addresses, monitors);
    ReadingIsRight(s.world, mid.world, t.world, pid, addresses, first.0, second.0);
    if AllParked(s.world.clients, addresses) {
      AllParkedKept(s.world, mid.world, addresses);
    }
  }

  /** Clients read from `mid` and monitors read later from `v`, in a run that began at `w`. */
  lemma ReadingIsRight(w: World, mid: World, v: World, pid: nat, addresses: seq<nat>, first: bool, second: bool)
    requires WellFormed(mid) && Calmer(false, w, mid) && Calmer(false, mid, v) && Covers(w, pid, addresses)
    ensures var state := ClassifyHide(if first then Some(mid.clients) else None, addresses,
                                      if second then Some(v.monitors) else None);
            && (state == Hidden ==> OffScreen(v, pid))
            && (state == OverlayOnFocused ==> OnFocused(v.monitors))
            && (state == NotHidden && addresses != [] ==>
                  SomeOutside(w, pid) || (Anywhere(v.monitors) && !OnFocused(v.monitors)))
            && (state == Unknown <==> !(first && second))
  {
    CoversKept(w, mid, pid, addresses);
    if AllParked(mid.clients, addresses) {
      ParkedMeansParked(mid, pid, addresses);
      if !Anywhere(v.monitors) {
        ReadParkedStays(mid, v, pid);
      }
    } else if addresses != [] {
      NotParkedMeansOutside(w, mid, pid, addresses);
    }
  }

  /** Two queries in a row. */
  lemma QueriesKeep(safe: bool, env: nat -> Fate, s: Session)
    requires Sound(safe, s.world)
    ensures var mid := Query(env, s).1; var t := Query(env, mid).1;
            && WellFormed(mid.world) && Calmer(safe, s.world, mid.world) && Calmer(safe, mid.world, t.world)
            && Sound(safe, t.world) && Calmer(safe, s.world, t.world)
            && (forall c :: Charge(t.world, c) == Charge(s.world, c))
            && t.world.pending <= s.world.pending
            && (s.world.pending[Toggle] == 0 ==> SameOverlay(s.world, t.world))
  {
    QueryKeeps(safe, env, s);
    var mid := Query(env, s).1;
    QueryKeeps(safe, env, mid);
    CalmerTrans(safe, s.world, mid.world, Query(env, mid).1.world);
  }

  lemma QueryKeeps(safe: bool, env: nat -> Fate, s: Session)
    requires Sound(safe, s.world)
    ensures var t := Query(env, s).1;
            && Sound(safe, t.world) && Calmer(safe, s.world, t.world)
            && (forall c :: Charge(t.world, c) == Charge(s.world, c))
            && t.world.pending <= s.world.pending
            && (s.world.pending[Toggle] == 0 ==> SameOverlay(s.world, t.world))
  {
    SettleKeeps(safe, s.world, env(s.calls).lands);
    if s.world.pending[Toggle] == 0 {
      SettleKeepsMonitors(s.world, env(s.calls).lands);
    }
  }

  lemma ReadParkedStays(w: World, v: World, pid: nat)
    requires Calmer(false, w, v) && !Anywhere(v.monitors)
    requires forall i :: 0 <= i < |w.clients| && IsMain(w.clients[i], pid) ==>
                           w.clients[i].workspace == HIDDEN_WORKSPACE
    requires exists i :: 0 <= i < |w.clients| && IsMain(w.clients[i], pid)
    ensures OffScreen(v, pid)
  {
    var i :| 0 <= i < |w.clients| && IsMain(w.clients[i], pid);
    assert ClientKept(w.clients[i], v.clients[i]);
    assert IsMain(v.clients[i], pid);
    forall i | 0 <= i < |v.clients| && IsMain(v.clients[i], pid)
      ensures v.clients[i].workspace == HIDDEN_WORKSPACE
    {
      assert ClientKept(w.clients[i], v.clients[i]);
    }
  }

  lemma AllParkedKept(w: World, v: World, addresses: seq<nat>)
    requires Calmer(false, w, v) && AllParked(w.clients, addresses)
    ensures AllParked(v.clients, addresses)
  {
    forall a | a in addresses ensures Parked(v.clients, a) {
      assert Parked(w.clients, a);
      var i :| 0 <= i < |w.clients| && w.clients[i].address == a && w.clients[i].workspace == HIDDEN_WORKSPACE;
      assert ClientKept(w.clients[i], v.clients[i]);
    }
  }

  // ----- Hiding

  /** Commands whose effect would change what the user sees. */
  predicate Matters(windows: seq<Client>, c: Command) {
    c == Toggle ||
    exists i :: 0 <= i < |windows| && windows[i].workspace != HIDDEN_WORKSPACE && c == Park(windows[i].address)
  }

  ghost predicate Grew(w: World, v: World, c: Command) { Charge(v, c) > Charge(w, c) }

  ghost predicate SomeMatterGrew(w: World, v: World, windows: seq<Client>) {
    exists c :: Matters(windows, c) && Grew(w, v, c)
  }

  /** The first `n` windows were dispatched once each, with these outcomes, and nothing else was. */
  ghost predicate Tally(w: World, v: World, windows: seq<Client>, outcomes: seq<MoveOutcome>) {
    && |outcomes| <= |windows|
    && (forall j :: 0 <= j < |outcomes| ==>
          Charge(v, Park(windows[j].address)) ==
          Charge(w, Park(windows[j].address)) + if MayHaveLanded(outcomes[j]) then 1 else 0)
    && (forall c :: (forall j :: 0 <= j < |outcomes| ==> c != Park(windows[j].address)) ==>
          Charge(v, c) == Charge(w, c))
  }

  predicate DistinctAddresses(windows: seq<Client>) {
    forall i, j :: 0 <= i < j < |windows| ==> windows[i].address != windows[j].address
  }

  lemma TallyNext(w: World, v: World, u: World, windows: seq<Client>, outcomes: seq<MoveOutcome>, o: MoveOutcome)
    requires Tally(w, v, windows, outcomes) && |outcomes| < |windows| && DistinctAddresses(windows)
    requires Charged(v, u, Park(windows[|outcomes|].address), if MayHaveLanded(o) then 1 else 0)
    ensures Tally(w, u, windows, outcomes + [o])
  {
    var n := |outcomes|;
    var all := outcomes + [o];
    forall j | 0 <= j < |all|
      ensures Charge(u, Park(windows[j].address)) ==
              Charge(w, Park(windows[j].address)) + if MayHaveLanded(all[j]) then 1 else 0
    {
      if j < n {
        assert Park(windows[j].address) != Park(windows[n].address);
      } else {
        assert forall i :: 0 <= i < n ==> Park(windows[n].address) != Park(windows[i].address);
      }
    }
    forall c | forall j :: 0 <= j < |all| ==> c != Park(windows[j].address)
      ensures Charge(u, c) == Charge(w, c)
    {
      assert forall j :: 0 <= j < n ==> c != Park(windows[j].address);
      assert c != Park(windows[n].address);
    }
  }

  /** Nothing but moves of the listed windows was sent, each at most once. */
  ghost predicate OnlyMoves(w: World, v: World, windows: seq<Client>) {
    forall c :: Charge(w, c) <= Charge(v, c) <= Charge(w, c) + 1
                && (Grew(w, v, c) ==> exists j :: 0 <= j < |windows| && c == Park(windows[j].address))
  }

  /** Reads change no charge. */
  lemma SameCharges(w: World, w1: World, v: World, v1: World, windows: seq<Client>)
    requires forall c :: Charge(w1, c) == Charge(w, c) && Charge(v1, c) == Charge(v, c)
    requires OnlyMoves(w1, v, windows)
    ensures OnlyMoves(w, v1, windows)
    ensures SomeMatterGrew(w, v1, windows) <==> SomeMatterGrew(w1, v, windows)
  {
    assert forall c :: Grew(w1, v, c) <==> Grew(w, v1, c);
  }

  lemma TallyBounds(w: World, v: World, windows: seq<Client>, outcomes: seq<MoveOutcome>, c: Command)
    requires Tally(w, v, windows, outcomes)
    ensures Charge(w, c) <= Charge(v, c) <= Charge(w, c) + 1
    ensures Grew(w, v, c) ==>
              exists j :: 0 <= j < |outcomes| && c == Park(windows[j].address) && MayHaveLanded(outcomes[j])
  {
    if j :| 0 <= j < |outcomes| && c == Park(windows[j].address) {
    }
  }

  lemma TallyOnlyMoves(w: World, v: World, windows: seq<Client>, outcomes: seq<MoveOutcome>)
    requires Tally(w, v, windows, outcomes)
    ensures OnlyMoves(w, v, windows)
  {
    forall c
      ensures Charge(w, c) <= Charge(v, c) <= Charge(w, c) + 1
      ensures Grew(w, v, c) ==> exists j :: 0 <= j < |windows| && c == Park(windows[j].address)
    {
      TallyBounds(w, v, windows, outcomes, c);
    }
  }

  /** A move of a window that was not parked may have landed. */
  ghost predicate SomeLanded(windows: seq<Client>, outcomes: seq<MoveOutcome>)
    requires |outcomes| <= |windows|
  {
    exists j :: 0 <= j < |outcomes| && windows[j].workspace != HIDDEN_WORKSPACE && MayHaveLanded(outcomes[j])
  }

  lemma SomeLandedNext(windows: seq<Client>, outcomes: seq<MoveOutcome>, o: MoveOutcome)
    requires |outcomes| < |windows|
    ensures SomeLanded(windows, outcomes + [o]) <==>
            || SomeLanded(windows, outcomes)
            || (windows[|outcomes|].workspace != HIDDEN_WORKSPACE && MayHaveLanded(o))
  {
    var all := outcomes + [o];
    assert forall j :: 0 <= j < |outcomes| ==> all[j] == outcomes[j];
    assert all[|outcomes|] == o;
  }

  lemma LandedIffGrew(w: World, v: World, windows: seq<Client>, outcomes: seq<MoveOutcome>)
    requires Tally(w, v, windows, outcomes) && DistinctAddresses(windows)
    ensures SomeMatterGrew(w, v, windows) <==> SomeLanded(windows, outcomes)
  {
    if SomeMatterGrew(w, v, windows) {
      var c :| Matters(windows, c) && Grew(w, v, c);
      TallyBounds(w, v, windows, outcomes, c);
    }
    if j :| 0 <= j < |outcomes| && windows[j].workspace != HIDDEN_WORKSPACE && MayHaveLanded(outcomes[j]) {
      assert Grew(w, v, Park(windows[j].address));
    }
  }

  lemma DoneStays(w: World, v: World, a: nat)
    requires Calmer(false, w, v) && Done(w, Park(a))
    ensures Done(v, Park(a))
  {
    forall i | 0 <= i < |v.clients| && v.clients[i].address == a
      ensures v.clients[i].workspace == HIDDEN_WORKSPACE
    {
      assert ClientKept(w.clients[i], v.clients[i]);
    }
  }

  /** Once every listed window was moved, all of them read as parked. */
  lemma AllDoneMeansParked(w: World, v: World, windows: seq<Client>)
    requires Calmer(false, w, v) && |windows| > 0
    requires forall c :: c in windows ==> c in w.clients
    requires forall j :: 0 <= j < |windows| ==> Done(v, Park(windows[j].address))
    ensures AllParked(v.clients, Addresses(windows))
  {
    forall a | a in Addresses(windows) ensures Parked(v.clients, a) {
      var j :| 0 <= j < |windows| && Addresses(windows)[j] == a;
      assert windows[j] in windows;
      var i :| 0 <= i < |w.clients| && w.clients[i] == windows[j];
      assert ClientKept(w.clients[i], v.clients[i]);
    }
  }

  /** The move of every listed window, in order. */
  lemma AllDoneStay(w: World, v: World, windows: seq<Client>)
    requires Calmer(false, w, v) && forall j :: 0 <= j < |windows| ==> Done(w, Park(windows[j].address))
    ensures forall j :: 0 <= j < |windows| ==> Done(v, Park(windows[j].address))
  {
    forall j | 0 <= j < |windows| ensures Done(v, Park(windows[j].address)) {
      DoneStays(w, v, windows[j].address);
    }
  }

  method ParkAll(ghost safe: bool, env: nat -> Fate, s: Session, windows: seq<Client>)
    returns (landed: bool, t: Session)
    requires Sound(safe, s.world) && (safe ==> s.world.pending[Toggle] == 0) && DistinctAddresses(windows)
    ensures Sound(safe, t.world) && Calmer(safe, s.world, t.world) && (safe ==> SameOverlay(s.world, t.world))
    ensures OnlyMoves(s.world, t.world, windows)
    ensures landed <==> SomeMatterGrew(s.world, t.world, windows)
    ensures t.calls >= s.calls + |windows| && t.legacyRules == s.legacyRules
    ensures Reliable(env, s) ==>
              Reliable(env, t) && forall j :: 0 <= j < |windows| ==> Done(t.world, Park(windows[j].address))
  {
    t := s;
    landed := false;
    ghost var outcomes: seq<MoveOutcome> := [];
    ghost var reliable := Reliable(env, s);
    var i := 0;
    while i < |windows|
      invariant 0 <= i <= |windows| && |outcomes| == i
      invariant Sound(safe, t.world) && Calmer(safe, s.world, t.world) && (safe ==> SameOverlay(s.world, t.world))
      invariant Tally(s.world, t.world, windows, outcomes)
      invariant landed <==> SomeLanded(windows, outcomes)
      invariant t.calls >= s.calls + i && t.legacyRules == s.legacyRules
      invariant reliable ==> Reliable(env, t) && forall j :: 0 <= j < i ==> Done(t.world, Park(windows[j].address))
    {
      ghost var u := t;
      var outcome;
      outcome, t := DispatchMoveThenLegacy(safe, env, t, Park(windows[i].address));
      CalmerTrans(safe, s.world, u.world, t.world);
      TallyNext(s.world, u.world, t.world, windows, outcomes, outcome);
      if reliable {
        ReliableStays(env, u, t, outcome);
        AllDoneStay(u.world, t.world, windows[..i]);
      }
      SomeLandedNext(windows, outcomes, outcome);
      outcomes := outcomes + [outcome];
      // Moving a window that is parked already says nothing.
      if windows[i].workspace != HIDDEN_WORKSPACE {
        landed := landed || MayHaveLanded(outcome);
      }
      i := i + 1;
    }
    TallyOnlyMoves(s.world, t.world, windows, outcomes);
    LandedIffGrew(s.world, t.world, windows, outcomes);
  }

  lemma MatterAfterToggle(s: World, u: World, v: World, windows: seq<Client>, n: nat)
    requires OnlyMoves(s, u, windows) && Charged(u, v, Toggle, n)
    ensures SomeMatterGrew(s, v, windows) <==> SomeMatterGrew(s, u, windows) || n > 0
    ensures Charge(v, Toggle) == Charge(s, Toggle) + n
  {
    assert !Grew(s, u, Toggle);
    if SomeMatterGrew(s, u, windows) {
      var c :| Matters(windows, c) && Grew(s, u, c);
      assert Grew(s, v, c);
    }
    if n > 0 {
      assert Matters(windows, Toggle) && Grew(s, v, Toggle);
    }
    if SomeMatterGrew(s, v, windows) && n == 0 {
      var c :| Matters(windows, c) && Grew(s, v, c);
      assert Grew(s, u, c);
    }
  }

  ghost predicate HasMain(w: World, pid: nat) { exists c :: c in w.clients && IsMain(c, pid) }

  lemma HasMainKept(w: World, v: World, pid: nat)
    requires Calmer(false, w, v)
    ensures HasMain(w, pid) <==> HasMain(v, pid)
  {
    if HasMain(w, pid) {
      var i :| 0 <= i < |w.clients| && IsMain(w.clients[i], pid);
      assert ClientKept(w.clients[i], v.clients[i]);
      assert v.clients[i] in v.clients;
    }
    if HasMain(v, pid) {
      var i :| 0 <= i < |v.clients| && IsMain(v.clients[i], pid);
      assert ClientKept(w.clients[i], v.clients[i]);
      assert w.clients[i] in w.clients;
    }
  }

  /** The one toggle of a hide, sent only when the overlay was read on the focused monitor. */
  method ToggleOnce(ghost safe: bool, env: nat -> Fate, s: Session, state: HideState) returns (landed: bool, t: Session)
    requires Sound(safe, s.world) && (safe ==> s.world.pending[Toggle] == 0)
    requires state == OverlayOnFocused ==> OnFocused(s.world.monitors)
    ensures Sound(safe, t.world) && Calmer(safe, s.world, t.world)
    ensures Charged(s.world, t.world, Toggle, if landed then 1 else 0)
    ensures landed ==> state == OverlayOnFocused
    ensures state != OverlayOnFocused ==> t == s
    ensures state == OverlayOnFocused ==>
              exists outcome :: RightAnswer(env, s, t, outcome) && landed == MayHaveLanded(outcome)
    ensures Reliable(env, s) ==> Reliable(env, t)
    ensures safe && Reliable(env, s) && state == OverlayOnFocused ==>
              !Anywhere(t.world.monitors) && t.world.pending[Toggle] == 0
  {
    if state != OverlayOnFocused {
      return false, s;
    }
    var outcome;
    outcome, t := DispatchMoveThenLegacy(safe, env, s, Toggle);
    landed := MayHaveLanded(outcome);
    if Reliable(env, s) {
      ReliableStays(env, s, t, outcome);
    }
  }

  method ListWindows(ghost safe: bool, env: nat -> Fate, s: Session, pid: nat)
    returns (windows: seq<Client>, t: Session)
    requires Sound(safe, s.world) && (safe ==> s.world.pending[Toggle] == 0)
    ensures Sound(safe, t.world) && Calmer(safe, s.world, t.world) && (safe ==> SameOverlay(s.world, t.world))
    ensures forall c :: Charge(t.world, c) == Charge(s.world, c)
    ensures windows == [] || windows == MainWindows(t.world.clients, pid)
    ensures DistinctAddresses(windows)
    ensures windows != [] ==> HasMain(s.world, pid) && Covers(t.world, pid, Addresses(windows))
    ensures t.calls == s.calls + 1 && t.dialect == s.dialect && t.legacyRules == s.legacyRules
    ensures windows == [] <==> !Readable(env(s.calls).delivery) || !HasMain(s.world, pid)
  {
    var listing := Query(env, s);
    QueryKeeps(safe, env, s);
    t := listing.1;
    HasMainKept(s.world, t.world, pid);
    windows := if listing.0 then MainWindows(t.world.clients, pid) else [];
    MainWindowsDistinct(t.world.clients, pid);
    ListedCover(t.world, pid);
    if windows != [] {
      assert windows[0] in windows;
    }
    if HasMain(t.world, pid) {
      var c :| c in t.world.clients && IsMain(c, pid);
      assert listing.0 ==> c in windows;
    }
  }

  /** The moves and the first check. */
  method ParkAndCheck(ghost safe: bool, env: nat -> Fate, s: Session, pid: nat, windows: seq<Client>)
    returns (landed: bool, state: HideState, t: Session)
    requires Sound(safe, s.world) && (safe ==> s.world.pending[Toggle] == 0) && DistinctAddresses(windows)
    requires windows == MainWindows(s.world.clients, pid) && |windows| > 0
    requires Covers(s.world, pid, Addresses(windows))
    ensures Sound(safe, t.world) && Calmer(safe, s.world, t.world) && (safe ==> SameOverlay(s.world, t.world))
    ensures OnlyMoves(s.world, t.world, windows)
    ensures landed <==> SomeMatterGrew(s.world, t.world, windows)
    ensures state == Hidden ==> OffScreen(t.world, pid)
    ensures state == OverlayOnFocused ==> OnFocused(t.world.monitors)
    ensures t.calls >= 2 && (state == Unknown <==> LastReadFailed(env, t))
    ensures Covers(t.world, pid, Addresses(windows))
    ensures t.calls >= s.calls + |windows| && t.legacyRules == s.legacyRules
    ensures Reliable(env, s) ==> Reliable(env, t) && AllParked(t.world.clients, Addresses(windows))
    ensures safe && Reliable(env, s) ==> state == if !Anywhere(s.world.monitors) then Hidden
                                       else if OnFocused(s.world.monitors) then OverlayOnFocused else NotHidden
  {
    var addresses := Addresses(windows);
    landed, t := ParkAll(safe, env, s, windows);
    ghost var w1 := t.world;
    CoversKept(s.world, w1, pid, addresses);
    if Reliable(env, s) {
      AllDoneMeansParked(s.world, w1, windows);
    }
    state, t := CheckHidden(safe, env, t, pid, addresses);
    CalmerTrans(safe, s.world, w1, t.world);
    CoversKept(w1, t.world, pid, addresses);
    if Reliable(env, s) {
      AllParkedKept(w1, t.world, addresses);
    }
    SameCharges(s.world, s.world, w1, t.world, windows);
  }

  /** Right before the two reads of the last check the toggle was dispatched, and its answer says
      whether it may have landed. */
  ghost predicate ToggleAnswered(env: nat -> Fate, s: Session, t: Session, landed: bool) {
    exists u: Session, v: Session, outcome ::
      && RightAnswer(env, u, v, outcome) && landed == MayHaveLanded(outcome)
      && u.legacyRules == s.legacyRules && v.calls + 2 == t.calls
  }

  /** The toggle, if it is needed, and the last check. */
  method ToggleAndCheck(ghost safe: bool, env: nat -> Fate, s: Session, pid: nat, addresses: seq<nat>, state: HideState)
    returns (toggled: bool, last: HideState, t: Session)
    requires Sound(safe, s.world) && (safe ==> s.world.pending[Toggle] == 0) && Covers(s.world, pid, addresses)
    requires state == OverlayOnFocused ==> OnFocused(s.world.monitors)
    ensures Sound(safe, t.world) && Calmer(safe, s.world, t.world)
    ensures Charged(s.world, t.world, Toggle, if toggled then 1 else 0)
    ensures toggled ==> state == OverlayOnFocused
    ensures state == OverlayOnFocused ==> ToggleAnswered(env, s, t, toggled)
    ensures t.calls >= s.calls
    ensures last == Hidden ==> OffScreen(t.world, pid)
    ensures t.calls >= 2 && (last == Unknown <==> LastReadFailed(env, t))
    ensures last == NotHidden && addresses != [] ==>
              SomeOutside(s.world, pid) || (Anywhere(t.world.monitors) && !OnFocused(t.world.monitors))
    ensures safe && Reliable(env, s) && AllParked(s.world.clients, addresses) ==>
              last == if state == OverlayOnFocused || !Anywhere(s.world.monitors) then Hidden
                      else if OnFocused(s.world.monitors) then OverlayOnFocused else NotHidden
  {
    toggled, t := ToggleOnce(safe, env, s, state);
    ghost var w := t.world;
    CoversKept(s.world, w, pid, addresses);
    if AllParked(s.world.clients, addresses) {
      AllParkedKept(s.world, w, addresses);
    }
    last, t := CheckHidden(safe, env, t, pid, addresses);
    CalmerTrans(safe, s.world, w, t.world);
    if SomeOutside(w, pid) {
      OutsideBefore(s.world, w, pid);
    }
  }

  lemma OutsideBefore(w: World, v: World, pid: nat)
    requires Calmer(false, w, v) && SomeOutside(v, pid)
    ensures SomeOutside(w, pid)
  {
    var i :| 0 <= i < |v.clients| && IsMain(v.clients[i], pid) && v.clients[i].workspace != HIDDEN_WORKSPACE;
    assert ClientKept(w.clients[i], v.clients[i]);
  }

  /** What every hide keeps: no window leaves for anywhere but the hidden workspace, each move and the
      toggle counts at most once, and only those are sent; when it is `safe`, the overlay is never opened. */
  ghost predicate SafeRun(safe: bool, w: World, v: World, windows: seq<Client>, checks: seq<HideState>) {
    && Sound(safe, v) && Calmer(safe, w, v)
    && (safe && Anywhere(v.monitors) ==> Anywhere(w.monitors))
    && (forall c :: Charge(w, c) <= Charge(v, c) <= Charge(w, c) + 1
                    && (Grew(w, v, c) ==>
                          c == Toggle || exists j :: 0 <= j < |windows| && c == Park(windows[j].address)))
    && (Grew(w, v, Toggle) ==> |checks| == 2 && checks[0] == OverlayOnFocused)
  }

  lemma SafeAfterMoves(safe: bool, w: World, v: World, windows: seq<Client>, checks: seq<HideState>)
    requires Calmer(safe, w, v) && Sound(safe, v) && OnlyMoves(w, v, windows)
    ensures SafeRun(safe, w, v, windows, checks)
  {
    if safe {
      CalmerNeverOpens(w, v);
    }
    assert !Grew(w, v, Toggle);
  }

  lemma SafeAfterToggle(safe: bool, w: World, u: World, v: World, windows: seq<Client>, checks: seq<HideState>,
                        toggled: bool)
    requires Calmer(safe, w, u) && Calmer(safe, u, v) && Sound(safe, v)
    requires OnlyMoves(w, u, windows) && Charged(u, v, Toggle, if toggled then 1 else 0)
    requires toggled ==> |checks| == 2 && checks[0] == OverlayOnFocused
    ensures SafeRun(safe, w, v, windows, checks)
    ensures SomeMatterGrew(w, v, windows) <==> SomeMatterGrew(w, u, windows) || toggled
  {
    MatterAfterToggle(w, u, v, windows, if toggled then 1 else 0);
    CalmerTrans(safe, w, u, v);
    if safe {
      CalmerNeverOpens(w, v);
    }
    forall c
      ensures Charge(w, c) <= Charge(v, c) <= Charge(w, c) + 1
      ensures Grew(w, v, c) ==> c == Toggle || exists j :: 0 <= j < |windows| && c == Park(windows[j].address)
    {
      assert c != Toggle ==> Charge(v, c) == Charge(u, c) && (Grew(w, v, c) <==> Grew(w, u, c));
    }
  }

  /** What the answer rests on: nothing was listed, or `Hidden` was read and is true, or the last
      check read nothing and a command that matters may have landed. */
  ghost predicate Verdict(w: World, v: World, pid: nat, windows: seq<Client>, checks: seq<HideState>, hidden: bool) {
    if |checks| == 0 then windows == [] && !hidden
    else
      && windows != []
      && |checks| == (if checks[0] == Hidden then 1 else 2)
      && var last := checks[|checks| - 1];
         && (hidden <==> last == Hidden || (last == Unknown && SomeMatterGrew(w, v, windows)))
         && (last == Hidden ==> OffScreen(v, pid))
  }

  /** The listing before the moves only reads. */
  lemma SafeAfterListing(safe: bool, w: World, w0: World, v: World, pid: nat, windows: seq<Client>,
                         checks: seq<HideState>, hidden: bool)
    requires Calmer(safe, w, w0) && forall c :: Charge(w0, c) == Charge(w, c)
    requires SafeRun(safe, w0, v, windows, checks) && Verdict(w0, v, pid, windows, checks, hidden)
    ensures SafeRun(safe, w, v, windows, checks) && Verdict(w, v, pid, windows, checks, hidden)
  {
    CalmerTrans(safe, w, w0, v);
    if safe {
      CalmerNeverOpens(w, v);
    }
    assert forall c :: Grew(w, v, c) <==> Grew(w0, v, c);
  }

  /** The answer when every call is answered. */
  ghost predicate ReliableAnswer(w: World) { Anywhere(w.monitors) ==> OnFocused(w.monitors) }

  method HideListed(ghost safe: bool, env: nat -> Fate, s: Session, pid: nat, windows: seq<Client>)
    returns (hidden: bool, t: Session, checks: seq<HideState>)
    requires Sound(safe, s.world) && (safe ==> s.world.pending[Toggle] == 0) && DistinctAddresses(windows)
    requires windows == MainWindows(s.world.clients, pid) && |windows| > 0
    requires Covers(s.world, pid, Addresses(windows))
    ensures SafeRun(safe, s.world, t.world, windows, checks)
    ensures Verdict(s.world, t.world, pid, windows, checks, hidden)
    ensures t.calls >= s.calls + |windows|
    ensures |checks| > 0 && (checks[|checks| - 1] == Unknown <==> LastReadFailed(env, t))
    ensures checks[0] == OverlayOnFocused ==> ToggleAnswered(env, s, t, Grew(s.world, t.world, Toggle))
    ensures safe && Reliable(env, s) ==> (hidden <==> ReliableAnswer(s.world))
  {
    var landed, state;
    landed, state, t := ParkAndCheck(safe, env, s, pid, windows);
    if state == Hidden {
      checks := [state];
      SafeAfterMoves(safe, s.world, t.world, windows, checks);
      return true, t, checks;
    }
    hidden, t, checks := FinishHide(safe, env, s.world, t, pid, windows, landed, state);
  }

  /** The part after a first check that did not read hidden. `w` is the compositor before the moves. */
  method FinishHide(ghost safe: bool, env: nat -> Fate, ghost w: World, s: Session, pid: nat, windows: seq<Client>,
                    landed: bool, first: HideState)
    returns (hidden: bool, t: Session, checks: seq<HideState>)
    requires Sound(safe, s.world) && (safe ==> s.world.pending[Toggle] == 0) && Calmer(safe, w, s.world)
    requires OnlyMoves(w, s.world, windows) && (landed <==> SomeMatterGrew(w, s.world, windows))
    requires Covers(s.world, pid, Addresses(windows)) && windows != [] && first != Hidden
    requires first == OverlayOnFocused ==> OnFocused(s.world.monitors)
    ensures SafeRun(safe, w, t.world, windows, checks) && Verdict(w, t.world, pid, windows, checks, hidden)
    ensures |checks| == 2 && checks[0] == first && (checks[1] == Unknown <==> LastReadFailed(env, t))
    ensures first == OverlayOnFocused ==> ToggleAnswered(env, s, t, Grew(w, t.world, Toggle))
    ensures t.calls >= s.calls
    ensures safe && Reliable(env, s) && AllParked(s.world.clients, Addresses(windows)) && Anywhere(s.world.monitors)
            && (first == OverlayOnFocused <==> OnFocused(s.world.monitors)) ==>
              (hidden <==> first == OverlayOnFocused)
  {
    var toggled, last;
    toggled, last, t := ToggleAndCheck(safe, env, s, pid, Addresses(windows), first);
    checks := [first, last];
    MatterAfterToggle(w, s.world, t.world, windows, if toggled then 1 else 0);
    SafeAfterToggle(safe, w, s.world, t.world, windows, checks, toggled);
    hidden := HideVerdict(last, landed || toggled);
  }

  method HideMainWindowsWithin(env: nat -> Fate, s: Session, pid: nat, isHyprland: bool)
    returns (hidden: bool, t: Session, windows: seq<Client>, checks: seq<HideState>)
    requires WellFormed(s.world)
    ensures SafeRun(s.world.pending[Toggle] == 0, s.world, t.world, windows, checks)
    ensures Verdict(s.world, t.world, pid, windows, checks, hidden)
    ensures |checks| > 0 ==> (checks[|checks| - 1] == Unknown <==> LastReadFailed(env, t))
    ensures |checks| > 0 && checks[0] == OverlayOnFocused ==>
              ToggleAnswered(env, s, t, Grew(s.world, t.world, Toggle))
    ensures isHyprland ==> (checks == [] <==> !Readable(env(s.calls).delivery) || !HasMain(s.world, pid))
    ensures t.calls >= s.calls + |windows|
    ensures forall c :: c in windows ==> IsMain(c, pid)
    ensures !isHyprland ==> !hidden && t == s
    ensures isHyprland && Reliable(env, s) && s.world.pending[Toggle] == 0 ==>
              (hidden <==> HasMain(s.world, pid) && ReliableAnswer(s.world))
  {
    ghost var safe := s.world.pending[Toggle] == 0;
    t, windows, checks := s, [], [];
    if !isHyprland {
      return false, t, windows, checks;
    }
    windows, t := ListWindows(safe, env, s, pid);
    ghost var listed := t;
    if windows == [] {
      NothingToHide(safe, s.world, t.world, windows, checks);
      return false, t, windows, checks;
    }
    hidden, t, checks := HideListed(safe, env, t, pid, windows);
    SafeAfterListing(safe, s.world, listed.world, t.world, pid, windows, checks, hidden);
    ToggleAfterListing(env, s, listed, t);
    ReliableAfterListing(env, s, listed);
  }

  lemma NothingToHide(safe: bool, w: World, v: World, windows: seq<Client>, checks: seq<HideState>)
    requires Calmer(safe, w, v) && Sound(safe, v) && forall c :: Charge(v, c) == Charge(w, c)
    ensures SafeRun(safe, w, v, windows, checks)
  {
    if safe {
      CalmerNeverOpens(w, v);
    }
  }

  lemma ToggleAfterListing(env: nat -> Fate, s: Session, u: Session, t: Session)
    requires u.legacyRules == s.legacyRules && Charge(u.world, Toggle) == Charge(s.world, Toggle)
    ensures ToggleAnswered(env, u, t, Grew(u.world, t.world, Toggle)) ==>
              ToggleAnswered(env, s, t, Grew(s.world, t.world, Toggle))
  {
  }

  lemma ReliableAfterListing(env: nat -> Fate, s: Session, u: Session)
    requires u.legacyRules == s.legacyRules && u.dialect == s.dialect
    ensures Reliable(env, s) ==> Reliable(env, u)
  {
  }
}
