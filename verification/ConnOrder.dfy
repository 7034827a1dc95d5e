/** Calls of `update_limits` whose steps may come in any order: which sets of calls can
    leave more permits per host than in all. */
module ConnOrder {
  import opened ConnBudget
  import opened ConnUpdates
  import opened Wrappers

  /** The limits a call of `update_limits` is made with: total, per host. */
  type Limits = (nat, nat)

  function TotalOf(call: Limits): nat { ClampTotal(call.0) }

  function PerHostOf(call: Limits): nat { ClampPerHost(call.0, call.1) }

  /** The calls made in a run, in their order. */
  function CallsOf(steps: seq<Step>): seq<Limits>
    decreases |steps|
  {
    if steps == [] then []
    else (if steps[0].CallUpdate? then [(steps[0].total, steps[0].perHost)] else []) + CallsOf(steps[1..])
  }

  /** A run of the budget in which exactly these calls are made and all of them return. */
  ghost predicate Finishes(total: nat, perHost: nat, calls: seq<Limits>, steps: seq<Step>) {
    && Exec(Init(total, perHost), steps).Some?
    && CallsOf(steps) == calls
    && forall u :: 0 <= u < |Exec(Init(total, perHost), steps).value.updaters| ==>
         Exec(Init(total, perHost), steps).value.updaters[u].Finished?
  }

  /** Whatever the order of their steps, the calls leave per host at most total. */
  ghost predicate AlwaysOrdered(total: nat, perHost: nat, calls: seq<Limits>) {
    forall steps :: Finishes(total, perHost, calls, steps) ==>
      Exec(Init(total, perHost), steps).value.maxPerHost <= Exec(Init(total, perHost), steps).value.maxTotal
  }

  /** No call asks for more per host than another one asks for in all. */
  ghost predicate Compatible(calls: seq<Limits>) {
    forall i, j :: 0 <= i < |calls| && 0 <= j < |calls| && i != j ==> PerHostOf(calls[i]) <= TotalOf(calls[j])
  }

  /** Calls keep per host within total in every order of their steps exactly when each one's per-host
      limit is within every other one's total. */
  lemma AlwaysOrderedIff(total: nat, perHost: nat, calls: seq<Limits>)
    ensures AlwaysOrdered(total, perHost, calls) <==> Compatible(calls)
  {
    if Compatible(calls) {
      forall steps | Finishes(total, perHost, calls, steps)
        ensures Exec(Init(total, perHost), steps).value.maxPerHost <= Exec(Init(total, perHost), steps).value.maxTotal
      {
        CompatibleIsEnough(total, perHost, calls, steps);
      }
    }
    if AlwaysOrdered(total, perHost, calls) {
      forall i, j | 0 <= i < |calls| && 0 <= j < |calls| && i != j
        ensures PerHostOf(calls[i]) <= TotalOf(calls[j])
      {
        var steps := CrossingRun(total, perHost, calls, i, j);
      }
    }
  }

  // ----- Enough

  lemma {:induction false} HistoryLimits(h: History, steps: seq<Step>)
    ensures var more := HistoryOf(h, steps).limits; var calls := CallsOf(steps);
            && |more| == |h.limits| + |calls| && more[..|h.limits|] == h.limits
            && forall i :: 0 <= i < |calls| ==> more[|h.limits| + i] == (TotalOf(calls[i]), PerHostOf(calls[i]))
    decreases |steps|
  {
    if steps != [] {
      HistoryLimits(Note(h, steps[0]), steps[1..]);
    }
  }

  /** Once some call has set a limit, the constructor's is no longer in force. */
  ghost predicate SetByCalls(calls: seq<Updater>, h: History) {
    && (forall u :: 0 <= u < |calls| && !calls[u].Requested? ==> h.totalBy > 0)
    && (forall u :: 0 <= u < |calls| && (calls[u].ResizingHosts? || calls[u].Finished?) ==> h.perHostBy > 0)
  }

  lemma StepSetByCalls(s: State, h: History, step: Step)
    requires SetByCalls(s.updaters, h) && Enabled(s, step)
    ensures SetByCalls(Apply(s, step).updaters, Note(h, step))
  {
    var after := Apply(s, step).updaters;
    forall v | 0 <= v < |after|
      ensures !after[v].Requested? ==> Note(h, step).totalBy > 0
      ensures after[v].ResizingHosts? || after[v].Finished? ==> Note(h, step).perHostBy > 0
    {
      if v < |s.updaters| && !(UpdaterStep(step) && step.u == v) {
        assert after[v] == s.updaters[v];
      }
    }
  }

  lemma {:induction false} RunSetByCalls(s: State, h: History, steps: seq<Step>)
    requires SetByCalls(s.updaters, h) && Exec(s, steps).Some?
    ensures SetByCalls(Exec(s, steps).value.updaters, HistoryOf(h, steps))
    decreases |steps|
  {
    if steps != [] {
      StepSetByCalls(s, h, steps[0]);
      RunSetByCalls(Apply(s, steps[0]), Note(h, steps[0]), steps[1..]);
    }
  }

  lemma CompatibleIsEnough(total: nat, perHost: nat, calls: seq<Limits>, steps: seq<Step>)
    requires Compatible(calls) && Finishes(total, perHost, calls, steps)
    ensures var s := Exec(Init(total, perHost), steps).value; s.maxPerHost <= s.maxTotal
  {
    var s := Exec(Init(total, perHost), steps).value;
    var first := FirstHistory(total, perHost);
    var h := HistoryOf(first, steps);
    RunRecords(Init(total, perHost), first, steps);
    RunSetByCalls(Init(total, perHost), first, steps);
    HistoryLimits(first, steps);
    if calls != [] {
      assert s.updaters[0].Finished?;
      assert h.limits[h.totalBy].0 == TotalOf(calls[h.totalBy - 1]);
      assert h.limits[h.perHostBy].1 == PerHostOf(calls[h.perHostBy - 1]);
    }
  }

  // ----- Needed

  function Requests(calls: seq<Limits>): seq<Updater> {
    seq(|calls|, k requires 0 <= k < |calls| => Requested(TotalOf(calls[k]), PerHostOf(calls[k])))
  }

  lemma {:induction false} CallsOfConcat(a: seq<Step>, b: seq<Step>)
    requires NoCalls(b)
    ensures CallsOf(a + b) == CallsOf(a)
    decreases |a| + |b|
  {
    if a != [] {
      assert (a + b)[1..] == a[1..] + b;
      CallsOfConcat(a[1..], b);
    } else if b != [] {
      assert (a + b)[1..] == a + b[1..];
      CallsOfConcat(a, b[1..]);
    }
  }

  lemma {:induction false} CallAll(s: State, calls: seq<Limits>) returns (steps: seq<Step>)
    ensures Exec(s, steps) == Some(s.(updaters := s.updaters + Requests(calls)))
    ensures CallsOf(steps) == calls
    decreases |calls|
  {
    steps := [];
    if calls == [] {
      assert s.updaters + Requests(calls) == s.updaters;
    } else {
      var step := CallUpdate(calls[0].0, calls[0].1);
      var rest := CallAll(Apply(s, step), calls[1..]);
      steps := [step] + rest;
      assert steps[1..] == rest;
      assert [Requests(calls)[0]] + Requests(calls[1..]) == Requests(calls);
      assert s.updaters + [Requests(calls)[0]] + Requests(calls[1..]) == s.updaters + Requests(calls);
    }
  }

  /** The calls from `u` on, but for one, set the total and resize the global semaphore in turn. */
  lemma {:induction false} TotalsBut(s: State, u: nat, skip: nat) returns (steps: seq<Step>, t: State)
    requires u <= |s.updaters|
    requires forall v :: u <= v < |s.updaters| && v != skip ==> s.updaters[v].Requested?
    ensures Exec(s, steps) == Some(t) && NoCalls(steps)
    ensures t.hosts == s.hosts && t.lock == s.lock && |t.updaters| == |s.updaters|
    ensures forall v :: 0 <= v < |s.updaters| ==>
              t.updaters[v] == if v < u || v == skip then s.updaters[v] else WantLock(s.updaters[v].perHost)
    decreases |s.updaters| - u
  {
    steps, t := [], s;
    if u < |s.updaters| {
      if u != skip {
        steps := TotalAlone(s, u);
        t := Exec(s, steps).value;
      }
      var rest, end := TotalsBut(t, u + 1, skip);
      ExecConcat(s, steps, rest);
      steps, t := steps + rest, end;
    }
  }

  lemma HostsAlone(s: State, u: nat) returns (steps: seq<Step>)
    requires IsUpdater(s, u) && s.updaters[u].WantLock? && s.lock.None? && s.hosts == map[]
    ensures Exec(s, steps) ==
            Some(s.(maxPerHost := s.updaters[u].perHost, updaters := s.updaters[u := Finished])) && NoCalls(steps)
  {
    var mid := ExecThen(s, [], s, SwapHosts(u));
    assert mid.updaters[u].pending == map[];
    var end := ExecThen(s, [] + [SwapHosts(u)], mid, Unlock(u));
    steps := [] + [SwapHosts(u)] + [Unlock(u)];
    assert mid.updaters[u := Finished] == s.updaters[u := Finished];
  }

  /** The calls from `u` on, but for one, set the per-host limit and return in turn. */
  lemma {:induction false} HostsBut(s: State, u: nat, skip: nat) returns (steps: seq<Step>, t: State)
    requires u <= |s.updaters| && s.lock.None? && s.hosts == map[]
    requires forall v :: u <= v < |s.updaters| && v != skip ==> s.updaters[v].WantLock?
    ensures Exec(s, steps) == Some(t) && NoCalls(steps)
    ensures t.hosts == map[] && t.lock.None? && t.maxTotal == s.maxTotal && |t.updaters| == |s.updaters|
    ensures forall v :: 0 <= v < |s.updaters| ==>
              t.updaters[v] == if v < u || v == skip then s.updaters[v] else Finished
    decreases |s.updaters| - u
  {
    steps, t := [], s;
    if u < |s.updaters| {
      if u != skip {
        steps := HostsAlone(s, u);
        t := Exec(s, steps).value;
      }
      var rest, end := HostsBut(t, u + 1, skip);
      ExecConcat(s, steps, rest);
      steps, t := steps + rest, end;
    }
  }

  /** The run in which call `j` sets the total last and call `i` the per-host limit. */
  lemma CrossingRun(total: nat, perHost: nat, calls: seq<Limits>, i: nat, j: nat) returns (steps: seq<Step>)
    requires i < |calls| && j < |calls|
    ensures Finishes(total, perHost, calls, steps)
    ensures var s := Exec(Init(total, perHost), steps).value;
            s.maxPerHost == PerHostOf(calls[i]) && s.maxTotal == TotalOf(calls[j])
  {
    var start := Init(total, perHost);
    var called := CallAll(start, calls);
    var s := Exec(start, called).value;
    assert s.updaters == Requests(calls);
    var rest, end := CrossingRest(s, i, j);
    ExecConcat(start, called, rest);
    CallsOfConcat(called, rest);
    steps := called + rest;
  }

  lemma CrossingRest(s: State, i: nat, j: nat) returns (steps: seq<Step>, t: State)
    requires IsUpdater(s, i) && IsUpdater(s, j) && s.lock.None? && s.hosts == map[]
    requires forall v :: 0 <= v < |s.updaters| ==> s.updaters[v].Requested?
    ensures Exec(s, steps) == Some(t) && NoCalls(steps)
    ensures t.maxTotal == s.updaters[j].total && t.maxPerHost == s.updaters[i].perHost
    ensures forall v :: 0 <= v < |t.updaters| ==> t.updaters[v].Finished?
  {
    var totals, mid := TotalsThen(s, j);
    var hosts, end := HostsThen(mid, i);
    ExecConcat(s, totals, hosts);
    steps, t := totals + hosts, end;
  }

  lemma TotalsThen(s: State, j: nat) returns (steps: seq<Step>, t: State)
    requires IsUpdater(s, j) && forall v :: 0 <= v < |s.updaters| ==> s.updaters[v].Requested?
    ensures Exec(s, steps) == Some(t) && NoCalls(steps)
    ensures t.hosts == s.hosts && t.lock == s.lock && t.maxTotal == s.updaters[j].total
    ensures |t.updaters| == |s.updaters|
    ensures forall v :: 0 <= v < |s.updaters| ==> t.updaters[v] == WantLock(s.updaters[v].perHost)
  {
    var others, mid := TotalsBut(s, 0, j);
    var last := TotalAlone(mid, j);
    ExecConcat(s, others, last);
    steps := others + last;
    t := Exec(mid, last).value;
  }

  lemma HostsThen(s: State, i: nat) returns (steps: seq<Step>, t: State)
    requires IsUpdater(s, i) && s.lock.None? && s.hosts == map[]
    requires forall v :: 0 <= v < |s.updaters| ==> s.updaters[v].WantLock?
    ensures Exec(s, steps) == Some(t) && NoCalls(steps)
    ensures t.maxTotal == s.maxTotal && t.maxPerHost == s.updaters[i].perHost
    ensures forall v :: 0 <= v < |t.updaters| ==> t.updaters[v].Finished?
  {
    var others, mid := HostsBut(s, 0, i);
    var last := HostsAlone(mid, i);
    ExecConcat(s, others, last);
    steps := others + last;
    t := Exec(mid, last).value;
  }
}
