/** The connection budget: a per-host and a global counting semaphore, taken in
    that order, whose limits may be changed while permits are out.

    The first half is the interleaving protocol. Every action that the program
    performs atomically (one semaphore operation, one atomic swap, one critical
    section on the host table) is one step; any order of steps is a run. */
module ConnBudget {
  import opened Sums
  import opened Wrappers

  type Key = string

  /** `available` permits, and `debt` permits that background shrink tasks still have to forget. */
  datatype Sem = Sem(available: nat, debt: nat)

  /** One call of `acquire`, `acquire_interruptible` or `try_acquire`, with the permit it may yield. */
  datatype Client =
    | WantHost(host: Key)    // has not looked up its host semaphore yet
    | WaitHost(host: Key)    // queued on the host semaphore, holds nothing
    | WaitGlobal(host: Key)  // holds a host permit, queued on the global semaphore
    | Holding(host: Key)     // holds a complete permit
    | Gone                   // dropped its permit, or was interrupted

  /** One call of `update_limits`. `delta` and `pending` are resizes swapped in but not yet applied. */
  datatype Updater =
    | Requested(total: nat, perHost: nat)
    | ResizingGlobal(perHost: nat, delta: int)
    | WantLock(perHost: nat)
    | ResizingHosts(pending: map<Key, int>)  // holds the host-table lock
    | Finished

  datatype State = State(
    global: Sem,
    maxTotal: nat,
    maxPerHost: nat,
    hosts: map<Key, Sem>,
    clients: seq<Client>,
    updaters: seq<Updater>,
    lock: Option<nat>)

  datatype Step =
    | Arrive(host: Key)
    | FindHost(c: nat)
    | TakeHost(c: nat)
    | TakeGlobal(c: nat)
    | Interrupt(c: nat)
    | Drop(c: nat)
    | CallUpdate(total: nat, perHost: nat)
    | SwapTotal(u: nat)
    | GrowGlobal(u: nat)
    | ShrinkGlobal(u: nat)
    | SpawnGlobal(u: nat)
    | GlobalDone(u: nat)
    | SwapHosts(u: nat)
    | GrowHost(u: nat, host: Key)
    | ShrinkHost(u: nat, host: Key)
    | SpawnHost(u: nat, host: Key)
    | Unlock(u: nat)
    | CollectGlobal
    | CollectHost(host: Key)

  function Abs(x: int): nat { if x < 0 then -x else x }

  function Clamp(x: nat, lo: nat, hi: nat): nat {
    if x < lo then lo else if x > hi then hi else x
  }

  function ClampTotal(total: nat): nat { Clamp(total, 1, 256) }

  function ClampPerHost(total: nat, perHost: nat): nat {
    var h := Clamp(perHost, 1, 64);
    if h < ClampTotal(total) then h else ClampTotal(total)
  }

  /** Limits in range are used as they are asked for; others are replaced by the nearest in range, and per
      host never goes beyond the total. */
  lemma LimitsAsAsked(total: nat, perHost: nat)
    ensures 1 <= total <= 256 ==> ClampTotal(total) == total
    ensures total == 0 ==> ClampTotal(total) == 1
    ensures total > 256 ==> ClampTotal(total) == 256
    ensures 1 <= perHost <= 64 && perHost <= ClampTotal(total) ==> ClampPerHost(total, perHost) == perHost
    ensures perHost == 0 ==> ClampPerHost(total, perHost) == 1
    ensures perHost > 64 && ClampTotal(total) >= 64 ==> ClampPerHost(total, perHost) == 64
    ensures perHost > ClampTotal(total) && ClampTotal(total) <= 64 ==> ClampPerHost(total, perHost) == ClampTotal(total)
  {
  }

  function Give(s: Sem, n: nat): Sem { s.(available := s.available + n) }

  function Take(s: Sem): Sem
    requires s.available > 0
  { s.(available := s.available - 1) }

  function Owe(s: Sem, n: nat): Sem { s.(debt := s.debt + n) }

  /** A shrink task gets a permit and forgets it. */
  function Collect(s: Sem): Sem
    requires s.available > 0 && s.debt > 0
  { Sem(s.available - 1, s.debt - 1) }

  function Init(total: nat, perHost: nat): State {
    State(Sem(ClampTotal(total), 0), ClampTotal(total), ClampPerHost(total, perHost), map[], [], [], None)
  }

  predicate IsClient(s: State, c: nat) { c < |s.clients| }

  predicate IsUpdater(s: State, u: nat) { u < |s.updaters| }

  predicate ResizesHost(s: State, u: nat, h: Key) {
    IsUpdater(s, u) && s.updaters[u].ResizingHosts? && h in s.updaters[u].pending && h in s.hosts
  }

  predicate Enabled(s: State, step: Step) {
    match step
    case Arrive(_) => true
    case FindHost(c) => IsClient(s, c) && s.clients[c].WantHost? && s.lock.None?
    case TakeHost(c) =>
      && IsClient(s, c) && s.clients[c].WaitHost?
      && s.clients[c].host in s.hosts && s.hosts[s.clients[c].host].available > 0
    case TakeGlobal(c) => IsClient(s, c) && s.clients[c].WaitGlobal? && s.global.available > 0
    case Interrupt(c) =>
      IsClient(s, c) && (s.clients[c].WantHost? || s.clients[c].WaitHost?
                         || (s.clients[c].WaitGlobal? && s.clients[c].host in s.hosts))
    case Drop(c) => IsClient(s, c) && s.clients[c].Holding? && s.clients[c].host in s.hosts
    case CallUpdate(_, _) => true
    case SwapTotal(u) => IsUpdater(s, u) && s.updaters[u].Requested?
    case GrowGlobal(u) => IsUpdater(s, u) && s.updaters[u].ResizingGlobal? && s.updaters[u].delta > 0
    case ShrinkGlobal(u) =>
      IsUpdater(s, u) && s.updaters[u].ResizingGlobal? && s.updaters[u].delta < 0 && s.global.available > 0
    case SpawnGlobal(u) =>
      IsUpdater(s, u) && s.updaters[u].ResizingGlobal? && s.updaters[u].delta < 0 && s.global.available == 0
    case GlobalDone(u) => IsUpdater(s, u) && s.updaters[u].ResizingGlobal? && s.updaters[u].delta == 0
    case SwapHosts(u) => IsUpdater(s, u) && s.updaters[u].WantLock? && s.lock.None?
    case GrowHost(u, h) => ResizesHost(s, u, h) && s.updaters[u].pending[h] > 0
    case ShrinkHost(u, h) => ResizesHost(s, u, h) && s.updaters[u].pending[h] < 0 && s.hosts[h].available > 0
    case SpawnHost(u, h) => ResizesHost(s, u, h) && s.updaters[u].pending[h] < 0 && s.hosts[h].available == 0
    case Unlock(u) => IsUpdater(s, u) && s.updaters[u].ResizingHosts? && s.updaters[u].pending == map[]
    case CollectGlobal => s.global.available > 0 && s.global.debt > 0
    case CollectHost(h) => h in s.hosts && s.hosts[h].available > 0 && s.hosts[h].debt > 0
  }

  function SetClient(s: State, c: nat, x: Client): State
    requires IsClient(s, c)
  { s.(clients := s.clients[c := x]) }

  function SetUpdater(s: State, u: nat, x: Updater): State
    requires IsUpdater(s, u)
  { s.(updaters := s.updaters[u := x]) }

  function SetHost(s: State, h: Key, x: Sem): State { s.(hosts := s.hosts[h := x]) }

  /** Drop `h` from what this update still has to resize, or leave `left` for it. */
  function Leave(pending: map<Key, int>, h: Key, left: int): map<Key, int> {
    if left == 0 then pending - {h} else pending[h := left]
  }

  /** The same amount for each of these hosts. */
  ghost function Spread(hosts: set<Key>, delta: int): (r: map<Key, int>)
    ensures r.Keys == hosts && forall h :: h in r ==> r[h] == delta
  {
    if hosts == {} then map[] else var h :| h in hosts; Spread(hosts - {h}, delta)[h := delta]
  }

  ghost function Apply(s: State, step: Step): State
    requires Enabled(s, step)
  {
    match step
    case Arrive(h) => s.(clients := s.clients + [WantHost(h)])
    case FindHost(c) =>
      var h := s.clients[c].host;
      var t := SetClient(s, c, WaitHost(h));
      if h in s.hosts then t else SetHost(t, h, Sem(s.maxPerHost, 0))
    case TakeHost(c) =>
      var h := s.clients[c].host;
      SetHost(SetClient(s, c, WaitGlobal(h)), h, Take(s.hosts[h]))
    case TakeGlobal(c) => SetClient(s, c, Holding(s.clients[c].host)).(global := Take(s.global))
    case Interrupt(c) =>
      var t := SetClient(s, c, Gone);
      if s.clients[c].WaitGlobal? then SetHost(t, s.clients[c].host, Give(s.hosts[s.clients[c].host], 1)) else t
    case Drop(c) =>
      var h := s.clients[c].host;
      SetHost(SetClient(s, c, Gone), h, Give(s.hosts[h], 1)).(global := Give(s.global, 1))
    case CallUpdate(t, p) => s.(updaters := s.updaters + [Requested(ClampTotal(t), ClampPerHost(t, p))])
    case SwapTotal(u) =>
      var r := s.updaters[u];
      SetUpdater(s, u, ResizingGlobal(r.perHost, r.total - s.maxTotal)).(maxTotal := r.total)
    case GrowGlobal(u) =>
      var r := s.updaters[u];
      SetUpdater(s, u, r.(delta := 0)).(global := Give(s.global, r.delta))
    case ShrinkGlobal(u) =>
      var r := s.updaters[u];
      SetUpdater(s, u, r.(delta := r.delta + 1)).(global := Take(s.global))
    case SpawnGlobal(u) =>
      var r := s.updaters[u];
      SetUpdater(s, u, r.(delta := 0)).(global := Owe(s.global, -r.delta))
    case GlobalDone(u) => SetUpdater(s, u, WantLock(s.updaters[u].perHost))
    case SwapHosts(u) =>
      var p := s.updaters[u].perHost;
      var delta := p - s.maxPerHost;
      var pending := if delta == 0 then map[] else Spread(s.hosts.Keys, delta);
      SetUpdater(s, u, ResizingHosts(pending)).(maxPerHost := p, lock := Some(u))
    case GrowHost(u, h) =>
      var p := s.updaters[u].pending;
      SetHost(SetUpdater(s, u, ResizingHosts(Leave(p, h, 0))), h, Give(s.hosts[h], p[h]))
    case ShrinkHost(u, h) =>
      var p := s.updaters[u].pending;
      SetHost(SetUpdater(s, u, ResizingHosts(Leave(p, h, p[h] + 1))), h, Take(s.hosts[h]))
    case SpawnHost(u, h) =>
      var p := s.updaters[u].pending;
      SetHost(SetUpdater(s, u, ResizingHosts(Leave(p, h, 0))), h, Owe(s.hosts[h], -p[h]))
    case Unlock(u) => SetUpdater(s, u, Finished).(lock := None)
    case CollectGlobal => s.(global := Collect(s.global))
    case CollectHost(h) => SetHost(s, h, Collect(s.hosts[h]))
  }

  /** Runs the steps in order; `None` when some step is not enabled. */
  ghost function Exec(s: State, steps: seq<Step>): Option<State>
    decreases |steps|
  {
    if steps == [] then Some(s)
    else if !Enabled(s, steps[0]) then None
    else Exec(Apply(s, steps[0]), steps[1..])
  }

  // ----- What the permits add up to

  function HoldsGlobal(c: Client): int { if c.Holding? then 1 else 0 }

  function AtHost(h: Key): Client -> int {
    (c: Client) => if (c.WaitGlobal? || c.Holding?) && c.host == h then 1 else 0
  }

  function PendingGlobal(u: Updater): int { if u.ResizingGlobal? then u.delta else 0 }

  function GlobalHeld(s: State): int { Sum(s.clients, HoldsGlobal) }

  function HostHeld(s: State, h: Key): int { Sum(s.clients, AtHost(h)) }

  /** The part of a per-host resize that `h` has not received yet. */
  function PendingHost(s: State, h: Key): int {
    if s.lock.Some? && IsUpdater(s, s.lock.value) && s.updaters[s.lock.value].ResizingHosts?
       && h in s.updaters[s.lock.value].pending
    then s.updaters[s.lock.value].pending[h] else 0
  }

  ghost predicate GlobalConserved(s: State) {
    s.global.available + GlobalHeld(s) == s.maxTotal + s.global.debt - Sum(s.updaters, PendingGlobal)
  }

  ghost predicate HostConserved(s: State, h: Key) {
    HostHeld(s, h) ==
    if h in s.hosts then s.maxPerHost + s.hosts[h].debt - PendingHost(s, h) - s.hosts[h].available else 0
  }

  ghost predicate LimitsOk(total: int, perHost: int) { 1 <= total <= 256 && 1 <= perHost <= 64 }

  ghost predicate UpdaterOk(s: State, u: nat)
    requires IsUpdater(s, u)
  {
    match s.updaters[u]
    case Requested(t, p) => LimitsOk(t, p)
    case ResizingGlobal(p, _) => 1 <= p <= 64
    case WantLock(p) => 1 <= p <= 64
    case ResizingHosts(pending) =>
      s.lock == Some(u) && pending.Keys <= s.hosts.Keys && (forall h :: h in pending ==> pending[h] != 0)
    case Finished => true
  }

  predicate HasHostSem(c: Client) { c.WaitHost? || c.WaitGlobal? || c.Holding? }

  ghost predicate Inv(s: State) {
    && LimitsOk(s.maxTotal, s.maxPerHost)
    && GlobalConserved(s)
    && (forall h :: HostConserved(s, h))
    && (forall c :: 0 <= c < |s.clients| && HasHostSem(s.clients[c]) ==> s.clients[c].host in s.hosts)
    && (forall u :: 0 <= u < |s.updaters| ==> UpdaterOk(s, u))
    && (s.lock.Some? ==> IsUpdater(s, s.lock.value) && s.updaters[s.lock.value].ResizingHosts?)
  }

  lemma CountsAfterSet(s: State, c: nat, x: Client)
    requires IsClient(s, c)
    ensures GlobalHeld(SetClient(s, c, x)) == GlobalHeld(s) - HoldsGlobal(s.clients[c]) + HoldsGlobal(x)
    ensures forall h :: HostHeld(SetClient(s, c, x), h) == HostHeld(s, h) - AtHost(h)(s.clients[c]) + AtHost(h)(x)
  {
    SumUpdate(s.clients, c, x, HoldsGlobal);
    forall h ensures HostHeld(SetClient(s, c, x), h) == HostHeld(s, h) - AtHost(h)(s.clients[c]) + AtHost(h)(x) {
      SumUpdate(s.clients, c, x, AtHost(h));
    }
  }

  lemma ClientStepKeepsInv(s: State, step: Step)
    requires Inv(s) && Enabled(s, step)
    requires step.FindHost? || step.TakeHost? || step.TakeGlobal? || step.Interrupt? || step.Drop?
    ensures Inv(Apply(s, step))
  {
    var t := Apply(s, step);
    CountsAfterSet(s, step.c, t.clients[step.c]);
    forall h ensures HostConserved(t, h) {
      assert HostConserved(s, h);
      assert HostHeld(t, h) == HostHeld(SetClient(s, step.c, t.clients[step.c]), h);
    }
    forall u | 0 <= u < |t.updaters| ensures UpdaterOk(t, u) {
      assert UpdaterOk(s, u);
    }
  }

  lemma ArrivalKeepsInv(s: State, step: Step)
    requires Inv(s) && (step.Arrive? || step.CallUpdate?)
    ensures Inv(Apply(s, step))
  {
    var t := Apply(s, step);
    if step.Arrive? {
      SumAppend(s.clients, WantHost(step.host), HoldsGlobal);
    } else {
      SumAppend(s.updaters, t.updaters[|s.updaters|], PendingGlobal);
    }
    forall h ensures HostConserved(t, h) {
      assert HostConserved(s, h);
      if step.Arrive? {
        SumAppend(s.clients, WantHost(step.host), AtHost(h));
      }
    }
    forall u | 0 <= u < |t.updaters| ensures UpdaterOk(t, u) {
      if u < |s.updaters| {
        assert UpdaterOk(s, u);
      }
    }
  }

  lemma CollectKeepsInv(s: State, step: Step)
    requires Inv(s) && Enabled(s, step) && (step.CollectGlobal? || step.CollectHost?)
    ensures Inv(Apply(s, step))
  {
    var t := Apply(s, step);
    forall h ensures HostConserved(t, h) {
      assert HostConserved(s, h);
    }
    forall u | 0 <= u < |t.updaters| ensures UpdaterOk(t, u) {
      assert UpdaterOk(s, u);
    }
  }

  predicate ResizesGlobal(step: Step) {
    step.SwapTotal? || step.GrowGlobal? || step.ShrinkGlobal? || step.SpawnGlobal? || step.GlobalDone?
  }

  predicate UpdaterStep(step: Step) {
    ResizesGlobal(step) || step.SwapHosts? || step.GrowHost? || step.ShrinkHost? || step.SpawnHost? || step.Unlock?
  }

  lemma GlobalResizeKeepsInv(s: State, step: Step)
    requires Inv(s) && Enabled(s, step) && ResizesGlobal(step)
    ensures Inv(Apply(s, step))
  {
    var t := Apply(s, step);
    assert UpdaterOk(s, step.u);
    SumUpdate(s.updaters, step.u, t.updaters[step.u], PendingGlobal);
    forall h ensures HostConserved(t, h) {
      assert HostConserved(s, h);
    }
    forall u | 0 <= u < |t.updaters| ensures UpdaterOk(t, u) {
      assert UpdaterOk(s, u);
    }
  }

  lemma HostResizeKeepsInv(s: State, step: Step)
    requires Inv(s) && Enabled(s, step)
    requires step.SwapHosts? || step.GrowHost? || step.ShrinkHost? || step.SpawnHost? || step.Unlock?
    ensures Inv(Apply(s, step))
  {
    var t := Apply(s, step);
    assert UpdaterOk(s, step.u);
    SumUpdate(s.updaters, step.u, t.updaters[step.u], PendingGlobal);
    forall h ensures HostConserved(t, h) {
      assert HostConserved(s, h);
    }
    forall u | 0 <= u < |t.updaters| ensures UpdaterOk(t, u) {
      assert UpdaterOk(s, u);
    }
  }

  lemma StepKeepsInv(s: State, step: Step)
    requires Inv(s) && Enabled(s, step)
    ensures Inv(Apply(s, step))
  {
    if step.Arrive? || step.CallUpdate? {
      ArrivalKeepsInv(s, step);
    } else if step.CollectGlobal? || step.CollectHost? {
      CollectKeepsInv(s, step);
    } else if ResizesGlobal(step) {
      GlobalResizeKeepsInv(s, step);
    } else if step.SwapHosts? || step.GrowHost? || step.ShrinkHost? || step.SpawnHost? || step.Unlock? {
      HostResizeKeepsInv(s, step);
    } else {
      ClientStepKeepsInv(s, step);
    }
  }

  lemma {:induction false} RunKeepsInv(s: State, steps: seq<Step>)
    requires Inv(s) && Exec(s, steps).Some?
    ensures Inv(Exec(s, steps).value)
    decreases |steps|
  {
    if steps != [] {
      StepKeepsInv(s, steps[0]);
      RunKeepsInv(Apply(s, steps[0]), steps[1..]);
    }
  }

  lemma InitInv(total: nat, perHost: nat)
    ensures Inv(Init(total, perHost))
  {
    forall h ensures HostConserved(Init(total, perHost), h) {
    }
  }

  ghost predicate Reachable(s: State) {
    exists total: nat, perHost: nat, steps :: Exec(Init(total, perHost), steps) == Some(s)
  }

  lemma ReachableInv(s: State)
    requires Reachable(s)
    ensures Inv(s)
  {
    var total: nat, perHost: nat, steps :| Exec(Init(total, perHost), steps) == Some(s);
    InitInv(total, perHost);
    RunKeepsInv(Init(total, perHost), steps);
  }

  // ----- Conservation over whole runs

  /** What every interleaving keeps: permits available or held are exactly the
      current cap plus the debt still to be forgotten, apart from resizes that
      were swapped in and are not applied yet. */
  lemma PermitsAreConserved(total: nat, perHost: nat, steps: seq<Step>, h: Key)
    requires Exec(Init(total, perHost), steps).Some?
    ensures var s := Exec(Init(total, perHost), steps).value;
            && s.global.available + GlobalHeld(s) + Sum(s.updaters, PendingGlobal) == s.maxTotal + s.global.debt
            && (h in s.hosts ==>
                  s.hosts[h].available + HostHeld(s, h) + PendingHost(s, h) == s.maxPerHost + s.hosts[h].debt)
            && 1 <= s.maxTotal <= 256 && 1 <= s.maxPerHost <= 64
  {
    InitInv(total, perHost);
    RunKeepsInv(Init(total, perHost), steps);
    assert HostConserved(Exec(Init(total, perHost), steps).value, h);
  }

  /** With no resize under way and its debts repaid, a semaphore never has more permits out than its cap. */
  lemma NoMoreThanTheCapIsHeld(s: State, h: Key)
    requires Reachable(s)
    requires forall u :: 0 <= u < |s.updaters| ==> s.updaters[u].Requested? || s.updaters[u].Finished?
    ensures s.global.debt == 0 ==> GlobalHeld(s) <= s.maxTotal
    ensures h in s.hosts && s.hosts[h].debt == 0 ==> HostHeld(s, h) <= s.maxPerHost
  {
    ReachableInv(s);
    SumZero(s.updaters, PendingGlobal);
    assert HostConserved(s, h);
    assert s.lock.Some? ==> UpdaterOk(s, s.lock.value);
  }

  /** A host first seen around a resize starts at the per-host cap in force, and
      no update is then between the swap of that cap and its last host, so the
      resize cannot reach the new host a second time. */
  lemma NewHostGetsTheDeltaOnce(s: State, c: nat)
    requires Reachable(s) && Enabled(s, FindHost(c)) && s.clients[c].host !in s.hosts
    ensures var t := Apply(s, FindHost(c));
            var h := s.clients[c].host;
            && h in t.hosts && t.hosts[h] == Sem(t.maxPerHost, 0) && HostHeld(t, h) == 0
            && forall u :: 0 <= u < |t.updaters| ==> !t.updaters[u].ResizingHosts?
  {
    ReachableInv(s);
    StepKeepsInv(s, FindHost(c));
    var t := Apply(s, FindHost(c));
    assert HostConserved(t, s.clients[c].host);
    forall u | 0 <= u < |t.updaters| ensures !t.updaters[u].ResizingHosts? {
      assert UpdaterOk(t, u);
    }
  }

  /** An interrupted waiter gives back whatever it took: the host permit returns, and it counts nowhere. */
  lemma InterruptKeepsNoSlot(s: State, c: nat)
    requires Reachable(s) && Enabled(s, Interrupt(c))
    ensures var t := Apply(s, Interrupt(c));
            var h := s.clients[c].host;
            && HoldsGlobal(t.clients[c]) == 0 && AtHost(h)(t.clients[c]) == 0
            && t.global == s.global && GlobalHeld(t) == GlobalHeld(s)
            && (s.clients[c].WaitGlobal? ==>
                  HostHeld(t, h) == HostHeld(s, h) - 1 && t.hosts[h].available == s.hosts[h].available + 1)
            && (!s.clients[c].WaitGlobal? ==> t.hosts == s.hosts && HostHeld(t, h) == HostHeld(s, h))
  {
    CountsAfterSet(s, c, Gone);
    var t := Apply(s, Interrupt(c));
    assert HostHeld(t, s.clients[c].host) == HostHeld(SetClient(s, c, Gone), s.clients[c].host);
  }

  // ----- Longer runs

  lemma {:induction false} ExecConcat(s: State, a: seq<Step>, b: seq<Step>)
    requires Exec(s, a).Some?
    ensures Exec(s, a + b) == Exec(Exec(s, a).value, b)
    decreases |a|
  {
    if a == [] {
      assert a + b == b;
    } else {
      assert (a + b)[1..] == a[1..] + b;
      ExecConcat(Apply(s, a[0]), a[1..], b);
    }
  }

  lemma {:induction false} ExecThen(s: State, before: seq<Step>, mid: State, step: Step) returns (t: State)
    requires Exec(s, before) == Some(mid) && Enabled(mid, step)
    ensures t == Apply(mid, step) && Exec(s, before + [step]) == Some(t)
    decreases |before|
  {
    if before == [] {
      assert [step][1..] == [];
      t := Apply(mid, step);
    } else {
      assert (before + [step])[1..] == before[1..] + [step];
      t := ExecThen(Apply(s, before[0]), before[1..], mid, step);
    }
  }
}
