/** Calls of `update_limits`: overlapping ones, and one on its own, which is what a caller sees. */
module ConnUpdates {
  import opened ConnBudget
  import opened Sums
  import opened Wrappers

  // ----- Overlapping updates

  /** The limits asked for, clamped, by the constructor and then by each call; and which of them set
      the total and the per-host limit last. */
  datatype History = History(limits: seq<(nat, nat)>, totalBy: nat, perHostBy: nat)

  function Note(h: History, step: Step): History {
    match step
    case CallUpdate(total, perHost) => h.(limits := h.limits + [(ClampTotal(total), ClampPerHost(total, perHost))])
    case SwapTotal(u) => h.(totalBy := u + 1)
    case SwapHosts(u) => h.(perHostBy := u + 1)
    case _ => h
  }

  function HistoryOf(h: History, steps: seq<Step>): History
    decreases |steps|
  {
    if steps == [] then h else HistoryOf(Note(h, steps[0]), steps[1..])
  }

  function FirstHistory(total: nat, perHost: nat): History {
    History([(ClampTotal(total), ClampPerHost(total, perHost))], 0, 0)
  }

  ghost predicate Records(s: State, h: History) {
    && |h.limits| == |s.updaters| + 1 && h.totalBy < |h.limits| && h.perHostBy < |h.limits|
    && (forall i :: 0 <= i < |h.limits| ==> h.limits[i].1 <= h.limits[i].0)
    && s.maxTotal == h.limits[h.totalBy].0 && s.maxPerHost == h.limits[h.perHostBy].1
    && (forall u :: 0 <= u < |s.updaters| ==> Carries(s.updaters[u], h.limits[u + 1]))
  }

  ghost predicate Carries(x: Updater, limits: (nat, nat)) {
    && (x.Requested? ==> limits == (x.total, x.perHost))
    && (x.ResizingGlobal? || x.WantLock? ==> limits.1 == x.perHost)
  }

  lemma StepRecords(s: State, h: History, step: Step)
    requires Records(s, h) && Enabled(s, step)
    ensures Records(Apply(s, step), Note(h, step))
  {
    var after := Apply(s, step).updaters;
    if UpdaterStep(step) {
      UpdaterStepRecords(s, h, step);
    } else if step.CallUpdate? {
      assert after[..|s.updaters|] == s.updaters;
      assert Carries(after[|s.updaters|], Note(h, step).limits[|s.updaters| + 1]);
    } else {
      assert after == s.updaters;
    }
  }

  lemma UpdaterStepRecords(s: State, h: History, step: Step)
    requires Records(s, h) && Enabled(s, step) && UpdaterStep(step)
    ensures Records(Apply(s, step), Note(h, step))
  {
    var after := Apply(s, step).updaters;
    assert Carries(s.updaters[step.u], h.limits[step.u + 1]);
    assert Carries(after[step.u], h.limits[step.u + 1]);
    assert forall v :: 0 <= v < |s.updaters| && v != step.u ==> after[v] == s.updaters[v];
  }

  lemma {:induction false} RunRecords(s: State, h: History, steps: seq<Step>)
    requires Records(s, h) && Exec(s, steps).Some?
    ensures Records(Exec(s, steps).value, HistoryOf(h, steps))
    decreases |steps|
  {
    if steps != [] {
      StepRecords(s, h, steps[0]);
      RunRecords(Apply(s, steps[0]), Note(h, steps[0]), steps[1..]);
    }
  }

  /** Per host at most total holds, after any run, exactly when the call that set the per-host limit
      last asked for no more per host than the call that set the total last asked for in all. */
  lemma PerHostWithinTotalIff(total: nat, perHost: nat, steps: seq<Step>)
    requires Exec(Init(total, perHost), steps).Some?
    ensures var s := Exec(Init(total, perHost), steps).value;
            var h := HistoryOf(FirstHistory(total, perHost), steps);
            && h.totalBy < |h.limits| && h.perHostBy < |h.limits|
            && s.maxTotal == h.limits[h.totalBy].0 && s.maxPerHost == h.limits[h.perHostBy].1
            && (s.maxPerHost <= s.maxTotal <==>
                  h.totalBy == h.perHostBy || h.limits[h.perHostBy].1 <= h.limits[h.totalBy].0)
  {
    RunRecords(Init(total, perHost), FirstHistory(total, perHost), steps);
  }

  /** A call that has set the total and not yet the per-host limit. */
  predicate Between(x: Updater) { x.ResizingGlobal? || x.WantLock? }

  /** No call sets the total between another call's two swaps. */
  ghost predicate OneAtATime(s: State, steps: seq<Step>)
    requires Exec(s, steps).Some?
    decreases |steps|
  {
    steps == [] ||
    ((steps[0].SwapTotal? ==> forall u :: 0 <= u < |s.updaters| ==> !Between(s.updaters[u]))
     && OneAtATime(Apply(s, steps[0]), steps[1..]))
  }

  /** At most one call is between its swaps, it set the total last, and without one the same call set both. */
  ghost predicate CallsOrderly(calls: seq<Updater>, h: History) {
    && (forall u :: 0 <= u < |calls| && Between(calls[u]) ==> h.totalBy == u + 1)
    && ((forall u :: 0 <= u < |calls| ==> !Between(calls[u])) ==> h.totalBy == h.perHostBy)
  }

  ghost predicate Orderly(s: State, h: History) { CallsOrderly(s.updaters, h) }

  lemma StepOrderly(s: State, h: History, step: Step)
    requires Records(s, h) && Orderly(s, h) && Enabled(s, step)
    requires step.SwapTotal? ==> forall u :: 0 <= u < |s.updaters| ==> !Between(s.updaters[u])
    ensures Orderly(Apply(s, step), Note(h, step))
  {
    if UpdaterStep(step) {
      UpdaterStepChanges(s, step);
      ChangeOrderly(s.updaters, Apply(s, step).updaters, step.u, h, step);
    } else {
      var more := Apply(s, step).updaters;
      assert forall v :: 0 <= v < |more| ==> if v < |s.updaters| then more[v] == s.updaters[v] else !Between(more[v]);
    }
  }

  /** What an updater's step does to the calls between their swaps. */
  lemma UpdaterStepChanges(s: State, step: Step)
    requires Enabled(s, step) && UpdaterStep(step)
    ensures var t := Apply(s, step);
            && |t.updaters| == |s.updaters|
            && (forall v :: 0 <= v < |s.updaters| && v != step.u ==> t.updaters[v] == s.updaters[v])
            && (Between(t.updaters[step.u]) <==> step.SwapTotal? || (Between(s.updaters[step.u]) && !step.SwapHosts?))
            && (step.SwapHosts? ==> Between(s.updaters[step.u]))
  {
  }

  lemma ChangeOrderly(before: seq<Updater>, after: seq<Updater>, u: nat, h: History, step: Step)
    requires u < |before| == |after| && forall v :: 0 <= v < |before| && v != u ==> after[v] == before[v]
    requires UpdaterStep(step) && step.u == u && CallsOrderly(before, h)
    requires Between(after[u]) <==> step.SwapTotal? || (Between(before[u]) && !step.SwapHosts?)
    requires step.SwapHosts? ==> Between(before[u])
    requires step.SwapTotal? ==> forall v :: 0 <= v < |before| ==> !Between(before[v])
    ensures CallsOrderly(after, Note(h, step))
  {
    if forall v :: 0 <= v < |after| ==> !Between(after[v]) {
      assert forall v :: 0 <= v < |before| && v != u ==> !Between(before[v]);
    }
  }

  lemma {:induction false} RunOrderly(s: State, h: History, steps: seq<Step>)
    requires Records(s, h) && Orderly(s, h) && Exec(s, steps).Some? && OneAtATime(s, steps)
    ensures Orderly(Exec(s, steps).value, HistoryOf(h, steps))
    decreases |steps|
  {
    if steps != [] {
      StepRecords(s, h, steps[0]);
      StepOrderly(s, h, steps[0]);
      RunOrderly(Apply(s, steps[0]), Note(h, steps[0]), steps[1..]);
    }
  }

  /** With calls that do not interleave their swaps, per host is at most total whenever none is between them. */
  lemma OneAtATimeKeepsTheOrder(total: nat, perHost: nat, steps: seq<Step>)
    requires Exec(Init(total, perHost), steps).Some? && OneAtATime(Init(total, perHost), steps)
    ensures var s := Exec(Init(total, perHost), steps).value;
            (forall u :: 0 <= u < |s.updaters| ==> !Between(s.updaters[u])) ==> s.maxPerHost <= s.maxTotal
  {
    PerHostWithinTotalIff(total, perHost, steps);
    RunOrderly(Init(total, perHost), FirstHistory(total, perHost), steps);
  }

  /** Two calls whose swaps cross: asked for 2 and 2, and for 1 and 1, the budget ends with 1 in all and 2 per host. */
  lemma CrossedUpdatesBreakTheOrder() returns (steps: seq<Step>)
    ensures Exec(Init(2, 2), steps).Some?
    ensures var s := Exec(Init(2, 2), steps).value;
            s.maxTotal == 1 && s.maxPerHost == 2 && forall u :: 0 <= u < |s.updaters| ==> s.updaters[u].Finished?
  {
    steps := CrossedTotals();
    steps := CrossedHosts(steps);
  }

  lemma CrossedTotals() returns (steps: seq<Step>)
    ensures Exec(Init(2, 2), steps) == Some(State(Sem(1, 0), 1, 2, map[], [], [WantLock(2), WantLock(1)], None))
  {
    var start := Init(2, 2);
    steps := [];
    var s := ExecThen(start, steps, start, CallUpdate(2, 2));
    steps := steps + [CallUpdate(2, 2)];
    s := ExecThen(start, steps, s, CallUpdate(1, 1));
    steps := steps + [CallUpdate(1, 1)];
    assert s == State(Sem(2, 0), 2, 2, map[], [], [Requested(2, 2), Requested(1, 1)], None);
    s := ExecThen(start, steps, s, SwapTotal(0));
    steps := steps + [SwapTotal(0)];
    s := ExecThen(start, steps, s, GlobalDone(0));
    steps := steps + [GlobalDone(0)];
    s := ExecThen(start, steps, s, SwapTotal(1));
    steps := steps + [SwapTotal(1)];
    s := ExecThen(start, steps, s, ShrinkGlobal(1));
    steps := steps + [ShrinkGlobal(1)];
    s := ExecThen(start, steps, s, GlobalDone(1));
    steps := steps + [GlobalDone(1)];
    assert s.updaters == [WantLock(2), WantLock(1)];
  }

  lemma CrossedHosts(before: seq<Step>) returns (steps: seq<Step>)
    requires Exec(Init(2, 2), before) == Some(State(Sem(1, 0), 1, 2, map[], [], [WantLock(2), WantLock(1)], None))
    ensures Exec(Init(2, 2), steps) == Some(State(Sem(1, 0), 1, 2, map[], [], [Finished, Finished], None))
  {
    var start := Init(2, 2);
    steps := before;
    var s := Exec(start, steps).value;
    s := ExecThen(start, steps, s, SwapHosts(1));
    steps := steps + [SwapHosts(1)];
    s := ExecThen(start, steps, s, Unlock(1));
    steps := steps + [Unlock(1)];
    s := ExecThen(start, steps, s, SwapHosts(0));
    steps := steps + [SwapHosts(0)];
    s := ExecThen(start, steps, s, Unlock(0));
    steps := steps + [Unlock(0)];
    assert s.updaters == [Finished, Finished];
  }

  // ----- The budget as one caller sees it

  /** A resize with nobody else running: growth is added at once; shrinking takes
      what is available now and leaves the rest as debt. */
  function Resized(sem: Sem, was: nat, cap: nat): Sem {
    if cap >= was then Give(sem, cap - was)
    else if was - cap <= sem.available then Sem(sem.available - (was - cap), sem.debt)
    else Sem(0, sem.debt + (was - cap - sem.available))
  }

  ghost predicate NoCalls(steps: seq<Step>) { forall i :: 0 <= i < |steps| ==> !steps[i].CallUpdate? }

  /** The protocol's own steps on the global semaphore, run without interleaving, amount to `Resized`. */
  lemma {:induction false} ResizeAlone(s: State, u: nat, was: nat, cap: nat) returns (steps: seq<Step>)
    requires IsUpdater(s, u) && s.updaters[u].ResizingGlobal? && s.updaters[u].delta == cap - was
    ensures Exec(s, steps) ==
            Some(SetUpdater(s, u, WantLock(s.updaters[u].perHost)).(global := Resized(s.global, was, cap)))
    ensures NoCalls(steps)
    decreases Abs(cap - was)
  {
    var step := if cap > was then GrowGlobal(u) else if cap == was then GlobalDone(u)
                else if s.global.available > 0 then ShrinkGlobal(u) else SpawnGlobal(u);
    var t := Apply(s, step);
    var rest := [];
    if step.ShrinkGlobal? {
      rest := ResizeAlone(t, u, was - 1, cap);
    } else if !step.GlobalDone? {
      rest := ResizeAlone(t, u, cap, cap);
    }
    steps := [step] + rest;
    assert steps[1..] == rest;
    assert t.updaters[u := WantLock(s.updaters[u].perHost)] == s.updaters[u := WantLock(s.updaters[u].perHost)];
  }

  /** The same for one host. */
  lemma {:induction false} ResizeHostAlone(s: State, u: nat, h: Key, was: nat, cap: nat) returns (steps: seq<Step>)
    requires ResizesHost(s, u, h) && s.updaters[u].pending[h] == cap - was != 0
    ensures Exec(s, steps) ==
            Some(SetHost(SetUpdater(s, u, ResizingHosts(s.updaters[u].pending - {h})), h,
                         Resized(s.hosts[h], was, cap)))
    decreases Abs(cap - was)
  {
    var step := if cap > was then GrowHost(u, h)
                else if s.hosts[h].available > 0 then ShrinkHost(u, h) else SpawnHost(u, h);
    var t := Apply(s, step);
    var rest := [];
    if step.ShrinkHost? && cap < was - 1 {
      assert t.updaters[u].pending - {h} == s.updaters[u].pending - {h};
      rest := ResizeHostAlone(t, u, h, was - 1, cap);
    }
    steps := [step] + rest;
    assert steps[1..] == rest;
    var done := ResizingHosts(s.updaters[u].pending - {h});
    assert t.updaters[u := done] == s.updaters[u := done];
    assert t.hosts[h := Resized(s.hosts[h], was, cap)] == s.hosts[h := Resized(s.hosts[h], was, cap)];
  }

  /** The same semaphores, each of `todo` resized. */
  ghost predicate HostsResized(before: map<Key, Sem>, after: map<Key, Sem>, todo: set<Key>, was: nat, cap: nat) {
    after.Keys == before.Keys
    && forall h :: h in before ==> after[h] == if h in todo then Resized(before[h], was, cap) else before[h]
  }

  lemma {:induction false} ResizeHostsAlone(s: State, u: nat, was: nat, cap: nat) returns (steps: seq<Step>, t: State)
    requires IsUpdater(s, u) && s.updaters[u].ResizingHosts? && s.updaters[u].pending.Keys <= s.hosts.Keys
    requires forall h :: h in s.updaters[u].pending ==> s.updaters[u].pending[h] == cap - was != 0
    ensures Exec(s, steps) == Some(t)
    ensures t == SetUpdater(s, u, ResizingHosts(map[])).(hosts := t.hosts)
    ensures HostsResized(s.hosts, t.hosts, s.updaters[u].pending.Keys, was, cap)
    decreases |s.updaters[u].pending|
  {
    var pending := s.updaters[u].pending;
    if pending == map[] {
      steps, t := [], s;
    } else {
      var h :| h in pending;
      var first := ResizeHostAlone(s, u, h, was, cap);
      var mid := Exec(s, first).value;
      var rest;
      rest, t := ResizeHostsAlone(mid, u, was, cap);
      steps := first + rest;
      ExecConcat(s, first, rest);
      assert mid.updaters[u := ResizingHosts(map[])] == s.updaters[u := ResizingHosts(map[])];
    }
  }

  /** A whole update that nobody interleaves with, step by step: the limits asked for, and the global
      and every host semaphore resized as one caller sees it. */
  lemma UpdateAlone(s: State, total: nat, perHost: nat) returns (steps: seq<Step>, t: State)
    requires s.lock.None?
    ensures Exec(s, steps) == Some(t)
    ensures t.maxTotal == ClampTotal(total) && t.maxPerHost == ClampPerHost(total, perHost)
    ensures t.global == Resized(s.global, s.maxTotal, t.maxTotal)
    ensures HostsResized(s.hosts, t.hosts, s.hosts.Keys, s.maxPerHost, t.maxPerHost)
    ensures t.clients == s.clients && t.updaters == s.updaters + [Finished] && t.lock.None?
  {
    var u := |s.updaters|;
    var p := ClampPerHost(total, perHost);
    var swapped := UpdateTotalAlone(s, total, perHost);
    steps := swapped;
    var locked := Exec(s, steps).value;
    var mid := ExecThen(s, steps, locked, SwapHosts(u));
    steps := steps + [SwapHosts(u)];
    var more, done := ResizeHostsAlone(mid, u, s.maxPerHost, p);
    ExecConcat(s, steps, more);
    steps := steps + more;
    t := ExecThen(s, steps, done, Unlock(u));
    steps := steps + [Unlock(u)];
  }

  lemma UpdateTotalAlone(s: State, total: nat, perHost: nat) returns (steps: seq<Step>)
    ensures Exec(s, steps) ==
            Some(s.(global := Resized(s.global, s.maxTotal, ClampTotal(total)), maxTotal := ClampTotal(total),
                    updaters := s.updaters + [WantLock(ClampPerHost(total, perHost))]))
  {
    var u := |s.updaters|;
    var called := ExecThen(s, [], s, CallUpdate(total, perHost));
    var more := TotalAlone(called, u);
    steps := [CallUpdate(total, perHost)] + more;
    assert steps[1..] == more;
    var w := WantLock(ClampPerHost(total, perHost));
    assert called.updaters[u := w] == s.updaters + [w];
  }

  /** A call already made sets the total and resizes the global semaphore. */
  lemma TotalAlone(s: State, u: nat) returns (steps: seq<Step>)
    requires IsUpdater(s, u) && s.updaters[u].Requested?
    ensures var x := s.updaters[u];
            Exec(s, steps) == Some(s.(global := Resized(s.global, s.maxTotal, x.total), maxTotal := x.total,
                                      updaters := s.updaters[u := WantLock(x.perHost)]))
    ensures NoCalls(steps)
  {
    var x := s.updaters[u];
    var swapped := Apply(s, SwapTotal(u));
    var more := ResizeAlone(swapped, u, s.maxTotal, x.total);
    steps := [SwapTotal(u)] + more;
    assert steps[1..] == more;
    assert swapped.updaters[u := WantLock(x.perHost)] == s.updaters[u := WantLock(x.perHost)];
  }

  /** `resize_semaphore`: one `try_acquire` and `forget` at a time until one fails. */
  method ResizeSemaphore(sem: Sem, was: nat, cap: nat) returns (r: Sem)
    ensures r == Resized(sem, was, cap)
    ensures r.available + sem.debt + was == sem.available + r.debt + cap
  {
    if cap == was {
      return sem;
    }
    if cap > was {
      return Give(sem, cap - was);
    }
    r := sem;
    var remaining := was - cap;
    while remaining > 0 && r.available > 0
      invariant 0 <= remaining <= was - cap
      invariant was - cap - remaining <= sem.available
      invariant r == Sem(sem.available - (was - cap - remaining), sem.debt)
    {
      r := Take(r);
      remaining := remaining - 1;
    }
    r := Owe(r, remaining);
  }

  class ConnectionBudget {
    var global: Sem
    var maxTotal: nat
    var maxPerHost: nat
    var hosts: map<Key, Sem>

    constructor (total: nat, perHost: nat)
      ensures maxTotal == ClampTotal(total) && maxPerHost == ClampPerHost(total, perHost)
      ensures global == Sem(maxTotal, 0) && hosts == map[]
    {
      maxTotal := ClampTotal(total);
      maxPerHost := ClampPerHost(total, perHost);
      global := Sem(ClampTotal(total), 0);
      hosts := map[];
    }

    method UpdateLimits(total: nat, perHost: nat)
      modifies this
      ensures maxTotal == ClampTotal(total) && maxPerHost == ClampPerHost(total, perHost)
      ensures 1 <= maxPerHost <= maxTotal <= 256 && maxPerHost <= 64
      ensures global == Resized(old(global), old(maxTotal), maxTotal)
      ensures hosts.Keys == old(hosts).Keys
      ensures forall h :: h in hosts ==> hosts[h] == Resized(old(hosts)[h], old(maxPerHost), maxPerHost)
    {
      var oldTotal := maxTotal;
      maxTotal := ClampTotal(total);
      global := ResizeSemaphore(global, oldTotal, maxTotal);
      var oldHost := maxPerHost;
      maxPerHost := ClampPerHost(total, perHost);
      if oldHost != maxPerHost {
        var todo := hosts.Keys;
        while todo != {}
          invariant todo <= hosts.Keys == old(hosts).Keys
          invariant forall h :: h in hosts ==>
                      hosts[h] == if h in todo then old(hosts)[h] else Resized(old(hosts)[h], oldHost, maxPerHost)
          invariant maxPerHost == ClampPerHost(total, perHost) && maxTotal == ClampTotal(total)
          invariant global == Resized(old(global), oldTotal, maxTotal)
        {
          var h :| h in todo;
          var r := ResizeSemaphore(hosts[h], oldHost, maxPerHost);
          hosts := hosts[h := r];
          todo := todo - {h};
        }
      }
    }

    /** The semaphore of a host, created at the current per-host cap the first time it is asked for. */
    method HostSemaphore(h: Key)
      modifies this`hosts
      ensures hosts == if h in old(hosts) then old(hosts) else old(hosts)[h := Sem(maxPerHost, 0)]
    {
      if h !in hosts {
        hosts := hosts[h := Sem(maxPerHost, 0)];
      }
    }

    /** Host permit first, then global; a global miss gives the host permit back. */
    method TryAcquire(h: Key) returns (ok: bool)
      modifies this`global, this`hosts
      ensures h in hosts && hosts.Keys == old(hosts).Keys + {h}
      ensures forall k :: k in old(hosts) && k != h ==> hosts[k] == old(hosts)[k]
      ensures var before := if h in old(hosts) then old(hosts)[h] else Sem(maxPerHost, 0);
              && (ok <==> before.available > 0 && old(global).available > 0)
              && (ok ==> hosts[h] == Take(before) && global == Take(old(global)))
              && (!ok ==> hosts[h] == before && global == old(global))
    {
      HostSemaphore(h);
      if hosts[h].available == 0 {
        return false;
      }
      hosts := hosts[h := Take(hosts[h])];
      if global.available == 0 {
        hosts := hosts[h := Give(hosts[h], 1)];
        return false;
      }
      global := Take(global);
      return true;
    }

    /** Dropping a complete permit returns both halves. */
    method DropPermit(h: Key)
      requires h in hosts
      modifies this`global, this`hosts
      ensures hosts == old(hosts)[h := Give(old(hosts)[h], 1)] && global == Give(old(global), 1)
    {
      hosts := hosts[h := Give(hosts[h], 1)];
      global := Give(global, 1);
    }
  }
}
