/** Progress of the connection budget: no deadlock, every schedule without new requests ends, and
    by then every waiter that was not interrupted has been served. */
module ConnProgress {
  import opened ConnBudget
  import opened Sums

  predicate Waiting(c: Client) { c.WantHost? || c.WaitHost? || c.WaitGlobal? }

  /** Steps that move an acquire or an update forward. */
  predicate Productive(step: Step) { step.FindHost? || step.TakeHost? || step.TakeGlobal? || UpdaterStep(step) }

  lemma UpdaterCanMove(s: State, u: nat) returns (step: Step)
    requires Inv(s) && IsUpdater(s, u) && !s.updaters[u].Finished?
    ensures Enabled(s, step) && UpdaterStep(step)
  {
    assert UpdaterOk(s, u);
    match s.updaters[u]
    case Requested(_, _) => step := SwapTotal(u);
    case ResizingGlobal(_, delta) =>
      step := if delta > 0 then GrowGlobal(u) else if delta == 0 then GlobalDone(u)
              else if s.global.available > 0 then ShrinkGlobal(u) else SpawnGlobal(u);
    case WantLock(_) =>
      if s.lock.None? {
        step := SwapHosts(u);
      } else {
        step := LockHolderCanMove(s, s.lock.value);
      }
    case ResizingHosts(_) => step := LockHolderCanMove(s, u);
  }

  lemma LockHolderCanMove(s: State, u: nat) returns (step: Step)
    requires Inv(s) && IsUpdater(s, u) && s.updaters[u].ResizingHosts?
    ensures Enabled(s, step) && UpdaterStep(step)
  {
    assert UpdaterOk(s, u);
    var pending := s.updaters[u].pending;
    if pending == map[] {
      step := Unlock(u);
    } else {
      var h :| h in pending;
      step := if pending[h] > 0 then GrowHost(u, h)
              else if s.hosts[h].available > 0 then ShrinkHost(u, h) else SpawnHost(u, h);
    }
  }

  lemma GlobalWaiterCanMove(s: State, c: nat) returns (step: Step)
    requires Inv(s) && IsClient(s, c) && s.clients[c].WaitGlobal?
    ensures Enabled(s, step) && (Productive(step) || step.Drop?)
  {
    if s.global.available > 0 {
      step := TakeGlobal(c);
    } else if GlobalHeld(s) > 0 {
      var d := SumPositive(s.clients, HoldsGlobal);
      step := Drop(d);
    } else {
      var u := SumPositive(s.updaters, PendingGlobal);
      step := GrowGlobal(u);
    }
  }

  /** No deadlock: while anyone waits, an acquire or an update can move, or a complete permit is out and
      can be dropped. */
  lemma DeadlockFree(s: State, c: nat) returns (step: Step)
    requires Inv(s) && IsClient(s, c) && Waiting(s.clients[c])
    ensures Enabled(s, step) && (Productive(step) || step.Drop?)
  {
    match s.clients[c]
    case WantHost(_) =>
      if s.lock.None? {
        step := FindHost(c);
      } else {
        step := LockHolderCanMove(s, s.lock.value);
      }
    case WaitHost(h) =>
      assert HostConserved(s, h);
      if s.hosts[h].available > 0 {
        step := TakeHost(c);
      } else if HostHeld(s, h) > 0 {
        var d := SumPositive(s.clients, AtHost(h));
        if s.clients[d].Holding? {
          step := Drop(d);
        } else {
          step := GlobalWaiterCanMove(s, d);
        }
      } else {
        step := LockHolderCanMove(s, s.lock.value);
      }
    case WaitGlobal(_) => step := GlobalWaiterCanMove(s, c);
  }

  function ClientRank(c: Client): int {
    match c
    case WantHost(_) => 4
    case WaitHost(_) => 3
    case WaitGlobal(_) => 2
    case Holding(_) => 1
    case Gone => 0
  }

  function UpdaterRank(u: Updater): int {
    match u
    case Requested(_, _) => 4
    case ResizingGlobal(_, _) => 3
    case WantLock(_) => 2
    case ResizingHosts(_) => 1
    case Finished => 0
  }

  /** The sum of a measure over the values of a map. */
  ghost function MapSum<V>(m: map<Key, V>, f: V -> nat): nat {
    if m == map[] then 0 else var h :| h in m; f(m[h]) + MapSum(m - {h}, f)
  }

  lemma {:induction false} MapSumRemove<V>(m: map<Key, V>, f: V -> nat, h: Key)
    requires h in m
    ensures MapSum(m, f) == f(m[h]) + MapSum(m - {h}, f)
    decreases |m|
  {
    var k :| k in m && MapSum(m, f) == f(m[k]) + MapSum(m - {k}, f);
    if k != h {
      MapSumRemove(m - {k}, f, h);
      MapSumRemove(m - {h}, f, k);
      assert m - {k} - {h} == m - {h} - {k};
    }
  }

  lemma MapSumSet<V>(m: map<Key, V>, f: V -> nat, h: Key, x: V)
    requires h in m
    ensures MapSum(m[h := x], f) + f(m[h]) == MapSum(m, f) + f(x)
  {
    MapSumRemove(m, f, h);
    MapSumRemove(m[h := x], f, h);
    assert m[h := x] - {h} == m - {h};
  }

  lemma PendingLeaves(pending: map<Key, int>, h: Key, left: int)
    requires h in pending && Abs(left) < Abs(pending[h])
    ensures MapSum(Leave(pending, h, left), Abs) < MapSum(pending, Abs)
  {
    MapSumRemove(pending, Abs, h);
    MapSumSet(pending, Abs, h, left);
  }

  ghost function ResizeLeft(u: Updater): int {
    if u.ResizingGlobal? then Abs(u.delta) else if u.ResizingHosts? then MapSum(u.pending, Abs) else 0
  }

  ghost function Stage(s: State): int { Sum(s.clients, ClientRank) + Sum(s.updaters, UpdaterRank) }

  ghost function Work(s: State): int { Sum(s.updaters, ResizeLeft) }

  /** Permits that shrink tasks still have to forget, over all semaphores. */
  ghost function Debts(s: State): nat { s.global.debt + MapSum(s.hosts, DebtOf) }

  function DebtOf(s: Sem): nat { s.debt }

  /** Every step but a new request. */
  predicate Forward(step: Step) { !step.Arrive? && !step.CallUpdate? }

  ghost predicate Less(t: State, s: State) {
    || Stage(t) < Stage(s)
    || (Stage(t) == Stage(s) && (Work(t) < Work(s) || (Work(t) == Work(s) && Debts(t) < Debts(s))))
  }

  /** Without new requests nothing can go on for ever: acquires, interrupts, drops, resizes and shrink
      tasks all make the measure smaller. */
  lemma StepDecreases(s: State, step: Step)
    requires Inv(s) && Enabled(s, step) && Forward(step)
    ensures Less(Apply(s, step), s)
    ensures Stage(Apply(s, step)) >= 0 && Work(Apply(s, step)) >= 0
  {
    var t := Apply(s, step);
    if UpdaterStep(step) {
      SumUpdate(s.updaters, step.u, t.updaters[step.u], UpdaterRank);
      SumUpdate(s.updaters, step.u, t.updaters[step.u], ResizeLeft);
      UpdaterDecreases(s, step);
    } else if step.CollectHost? {
      DebtLeaves(s, step.host);
    } else if !step.CollectGlobal? {
      SumUpdate(s.clients, step.c, t.clients[step.c], ClientRank);
    }
    RanksNonNegative(t);
  }

  lemma DebtLeaves(s: State, h: Key)
    requires Enabled(s, CollectHost(h))
    ensures Debts(Apply(s, CollectHost(h))) < Debts(s)
  {
    MapSumSet(s.hosts, DebtOf, h, Collect(s.hosts[h]));
  }

  lemma UpdaterDecreases(s: State, step: Step)
    requires Inv(s) && Enabled(s, step) && Productive(step) && UpdaterStep(step)
    ensures var x := s.updaters[step.u]; var y := Apply(s, step).updaters[step.u];
            UpdaterRank(y) < UpdaterRank(x) || (UpdaterRank(y) == UpdaterRank(x) && ResizeLeft(y) < ResizeLeft(x))
  {
    if step.GrowHost? || step.ShrinkHost? || step.SpawnHost? {
      var p := s.updaters[step.u].pending;
      PendingLeaves(p, step.host, if step.ShrinkHost? then p[step.host] + 1 else 0);
    }
  }

  lemma RanksNonNegative(s: State)
    ensures Stage(s) >= 0 && Work(s) >= 0
  {
    SumMonotone(s.clients, (c: Client) => 0, ClientRank);
    SumZero(s.clients, (c: Client) => 0);
    SumMonotone(s.updaters, (u: Updater) => 0, UpdaterRank);
    SumMonotone(s.updaters, (u: Updater) => 0, ResizeLeft);
    SumZero(s.updaters, (u: Updater) => 0);
  }

  /** From every state that keeps the invariant, there is a continuation with no
      interrupt and no new request that grants a complete permit to every waiter. */
  lemma {:induction false} EveryWaiterCanBeServed(s: State) returns (steps: seq<Step>)
    requires Inv(s)
    ensures Exec(s, steps).Some?
    ensures forall i :: 0 <= i < |steps| ==> Productive(steps[i]) || steps[i].Drop?
    ensures forall c :: 0 <= c < |s.clients| && Waiting(s.clients[c]) ==> TakeGlobal(c) in steps
    decreases Stage(s), Work(s), Debts(s)
  {
    if c :| 0 <= c < |s.clients| && Waiting(s.clients[c]) {
      var step := DeadlockFree(s, c);
      var t := Apply(s, step);
      StepKeepsInv(s, step);
      StepDecreases(s, step);
      var rest := EveryWaiterCanBeServed(t);
      steps := [step] + rest;
      assert steps[1..] == rest;
      forall d | 0 <= d < |s.clients| && Waiting(s.clients[d]) ensures TakeGlobal(d) in steps {
        if step != TakeGlobal(d) {
          WaitsOn(s, step, d);
          assert TakeGlobal(d) in rest;
        }
      }
    } else {
      steps := [];
    }
  }

  /** No schedule goes on for ever without new requests, whatever order the semaphores serve their
      waiters in. */
  lemma EveryRunEnds(states: nat -> State, steps: nat -> Step)
    requires Inv(states(0))
    ensures exists k: nat :: !Follows(states, steps, k)
  {
    if forall k: nat :: Follows(states, steps, k) {
      NoEndlessRun(states, steps, 0);
    }
  }

  /** Step `k` is a forward step that leads from state `k` to the next. */
  ghost predicate Follows(states: nat -> State, steps: nat -> Step, k: nat) {
    Enabled(states(k), steps(k)) && Forward(steps(k)) && states(k + 1) == Apply(states(k), steps(k))
  }

  lemma {:induction false} NoEndlessRun(states: nat -> State, steps: nat -> Step, k: nat)
    requires Inv(states(k)) && forall i: nat :: Follows(states, steps, i)
    ensures false
    decreases Stage(states(k)), Work(states(k)), Debts(states(k))
  {
    assert Follows(states, steps, k);
    StepKeepsInv(states(k), steps(k));
    StepDecreases(states(k), steps(k));
    RanksNonNegative(states(k));
    NoEndlessRun(states, steps, k + 1);
  }

  /** Forward steps nobody has to ask for: an interrupt is somebody else's wish. */
  predicate Willing(step: Step) { Forward(step) && !step.Interrupt? }

  ghost predicate Still(s: State) { forall step :: Willing(step) ==> !Enabled(s, step) }

  /** Where nothing can move without an interrupt or a new request, nobody waits, every update is
      applied, every debt is repaid and every permit is back. */
  lemma StillMeansServed(s: State)
    requires Inv(s) && Still(s)
    ensures forall c :: 0 <= c < |s.clients| ==> s.clients[c].Gone?
    ensures forall u :: 0 <= u < |s.updaters| ==> s.updaters[u].Finished?
    ensures s.global == Sem(s.maxTotal, 0)
    ensures forall h :: h in s.hosts ==> s.hosts[h] == Sem(s.maxPerHost, 0)
  {
    forall c | 0 <= c < |s.clients| ensures s.clients[c].Gone? {
      StillClient(s, c);
    }
    forall u | 0 <= u < |s.updaters| ensures s.updaters[u].Finished? {
      StillUpdater(s, u);
    }
    SumZero(s.clients, HoldsGlobal);
    SumZero(s.updaters, PendingGlobal);
    assert !Enabled(s, CollectGlobal);
    forall h | h in s.hosts ensures s.hosts[h] == Sem(s.maxPerHost, 0) {
      SumZero(s.clients, AtHost(h));
      assert HostConserved(s, h) && !Enabled(s, CollectHost(h));
    }
  }

  lemma StillClient(s: State, c: nat)
    requires Inv(s) && Still(s) && IsClient(s, c)
    ensures s.clients[c].Gone?
  {
    assert !Enabled(s, Drop(c));
    if Waiting(s.clients[c]) {
      var step := DeadlockFree(s, c);
      assert false;
    }
  }

  lemma StillUpdater(s: State, u: nat)
    requires Inv(s) && Still(s) && IsUpdater(s, u)
    ensures s.updaters[u].Finished?
  {
    if !s.updaters[u].Finished? {
      var step := UpdaterCanMove(s, u);
      assert false;
    }
  }

  /** A run without new requests that goes on until nothing moves by itself has served every waiter that
      was not interrupted, whatever the order of its steps and whoever else was interrupted. */
  lemma {:induction false} EveryWaiterIsServed(s: State, steps: seq<Step>, c: nat)
    requires Inv(s) && Exec(s, steps).Some? && forall i :: 0 <= i < |steps| ==> Forward(steps[i])
    requires Still(Exec(s, steps).value)
    requires IsClient(s, c) && Waiting(s.clients[c]) && Interrupt(c) !in steps
    ensures TakeGlobal(c) in steps
    decreases |steps|
  {
    if steps == [] {
      StillClient(s, c);
    } else if steps[0] != TakeGlobal(c) {
      assert steps[0] in steps;
      var t := Apply(s, steps[0]);
      StepKeepsInv(s, steps[0]);
      WaitsOn(s, steps[0], c);
      EveryWaiterIsServed(t, steps[1..], c);
    }
  }

  lemma WaitsOn(s: State, step: Step, c: nat)
    requires Enabled(s, step) && step != Interrupt(c) && step != TakeGlobal(c)
    requires IsClient(s, c) && Waiting(s.clients[c])
    ensures IsClient(Apply(s, step), c) && Waiting(Apply(s, step).clients[c])
  {
  }
}
