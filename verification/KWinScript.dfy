/** Running one script inside KWin over a session bus that may fail, or time out
    with the request landing at once, later or never. KWin numbers a script by how
    many are live, so a number can already belong to someone else's object; a path
    belongs to whoever registered there first. Nobody else loads, unloads or runs
    scripts meanwhile. */
module KWinScript {
  import opened Wrappers

  const MAX_LOAD_ATTEMPTS := 4

  // ----- KWin

  datatype Script = Script(name: string, id: nat)

  /** `bare` is KWin 5's path layout (`/<id>`), otherwise KWin 6's. */
  datatype Request = Load(name: string) | Unload(name: string) | Run(bare: bool, id: nat)

  /** `objects` maps the number in a path to the script registered there; `ran` lists the scripts that ran. */
  datatype KWin = KWin(
    bare: bool,
    live: seq<Script>,
    objects: map<nat, string>,
    pending: multiset<Request>,
    ran: seq<string>)

  function Without(live: seq<Script>, name: string): seq<Script> {
    if live == [] then []
    else (if live[0].name == name then [] else [live[0]]) + Without(live[1..], name)
  }

  predicate Exists(w: KWin, bare: bool, id: nat) { bare == w.bare && id in w.objects }

  function Apply(w: KWin, r: Request): KWin {
    match r
    case Load(name) =>
      var id := |w.live|;
      w.(live := w.live + [Script(name, id)],
         objects := if id in w.objects then w.objects else w.objects[id := name])
    case Unload(name) =>
      w.(live := Without(w.live, name),
         objects := w.objects - (set id | id in w.objects && w.objects[id] == name))
    case Run(bare, id) =>
      if Exists(w, bare, id) then w.(ran := w.ran + [w.objects[id]]) else w
  }

  function Land(w: KWin, r: Request): KWin {
    if r in w.pending then Apply(w.(pending := w.pending - multiset{r}), r) else w
  }

  function Settle(w: KWin, lands: seq<Request>): KWin
    decreases |lands|
  {
    if lands == [] then w else Settle(Land(w, lands[0]), lands[1..])
  }

  // ----- The bus

  /** `Refused`: answered with an error. `Done`: carried out; a load's reply may lack the number. */
  datatype Delivery = Refused | TimedOut(landed: bool) | Done(readable: bool)

  datatype Fate = Fate(lands: seq<Request>, delivery: Delivery)

  datatype BusReply = BusError | BusFailure | BusOk(id: Option<nat>)

  datatype Sent = Sent(request: Request, ok: bool)

  /** `created` and `removed` are the script files written and deleted, by script name. */
  datatype Session = Session(kwin: KWin, calls: nat, log: seq<Sent>, created: set<string>, removed: set<string>)

  function Reached(env: nat -> Fate, s: Session): KWin { Settle(s.kwin, env(s.calls).lands) }

  /** What becomes of KWin, and the reply. A run on a path nobody registered is an error. */
  function Carry(w: KWin, r: Request, d: Delivery): (result: (BusReply, KWin)) {
    match d
    case Refused => (BusFailure, w)
    case TimedOut(landed) => (BusError, if landed then Apply(w, r) else w.(pending := w.pending + multiset{r}))
    case Done(readable) =>
      if r.Run? && !Exists(w, r.bare, r.id) then (BusError, w)
      else (BusOk(if r.Load? && readable then Some(|w.live|) else None), Apply(w, r))
  }

  function Call(env: nat -> Fate, s: Session, r: Request): (result: (BusReply, Session)) {
    var (reply, w) := Carry(Reached(env, s), r, env(s.calls).delivery);
    (reply, s.(kwin := w, calls := s.calls + 1, log := s.log + [Sent(r, reply.BusOk?)]))
  }

  /** One introspection, of the root (`bare`) or of `/Scripting`: the numbers registered below it. */
  function Introspect(env: nat -> Fate, s: Session, bare: bool): (result: (Option<set<nat>>, Session)) {
    var w := Reached(env, s);
    (if env(s.calls).delivery.Done? then Some(if bare == w.bare then w.objects.Keys else {}) else None,
     s.(kwin := w, calls := s.calls + 1))
  }

  /** A request that went unanswered was carried out already, or changes nothing until it lands. */
  lemma UnansweredRequest(w: KWin, r: Request)
    ensures Carry(w, r, TimedOut(true)) == (BusError, Apply(w, r))
    ensures var (reply, v) := Carry(w, r, TimedOut(false));
            && reply == BusError && v.live == w.live && v.objects == w.objects && v.ran == w.ran
            && Settle(v, [r]) == Apply(w, r)
  {
    var v := Carry(w, r, TimedOut(false)).1;
    assert v.pending - multiset{r} == w.pending;
    assert [r][1..] == [];
    assert Settle(Land(v, r), []) == Land(v, r);
  }

  /** An answered request was carried out. A load's reply names the next number when it can be read; a run is
      answered well exactly when the object is registered on the layout it names; and no reply but a load's
      carries a number. */
  lemma AnsweredRequest(w: KWin, r: Request, readable: bool)
    ensures var (reply, v) := Carry(w, r, Done(readable));
            && v == Apply(w, r)
            && (reply.BusOk? <==> (r.Run? ==> r.bare == w.bare && r.id in w.objects))
            && (reply.BusOk? ==> reply.id == if r.Load? && readable then Some(|w.live|) else None)
  {
  }

  /** Each layout lists the objects that are registered on it. */
  lemma IntrospectionSees(env: nat -> Fate, s: Session, bare: bool)
    ensures var (ids, t) := Introspect(env, s, bare);
            && t.calls == s.calls + 1 && t.log == s.log
            && (ids.Some? <==> env(s.calls).delivery.Done?)
            && (ids.Some? ==> forall id :: id in ids.value <==> Exists(t.kwin, bare, id))
  {
  }

  // ----- Ownership

  function Foreign(live: seq<Script>, ours: set<string>): seq<Script> {
    if live == [] then []
    else (if live[0].name in ours then [] else [live[0]]) + Foreign(live[1..], ours)
  }

  /** A request that can touch nothing but `ours`, in a KWin that started as `w0`. */
  ghost predicate Harmless(w0: KWin, r: Request, ours: set<string>) {
    match r
    case Load(name) => name in ours
    case Unload(name) => name in ours
    case Run(_, id) => id !in w0.objects
  }

  /** Since `w0`, every other script kept its object and its place, and only `ours` ran. */
  ghost predicate OnlyOurs(w0: KWin, w: KWin, ours: set<string>) {
    && w.bare == w0.bare
    && (forall id :: id in w0.objects ==> id in w.objects && w.objects[id] == w0.objects[id])
    && (forall id :: id in w.objects && id !in w0.objects ==> w.objects[id] in ours)
    && Foreign(w.live, ours) == w0.live
    && w0.ran <= w.ran
    && (forall i :: |w0.ran| <= i < |w.ran| ==> w.ran[i] in ours)
    && (forall r :: r in w.pending ==> Harmless(w0, r, ours))
  }

  /** None of the names is in use: they carry a fresh random part. */
  ghost predicate Unused(w0: KWin, ours: set<string>) {
    && (forall id :: id in w0.objects ==> w0.objects[id] !in ours)
    && (forall i :: 0 <= i < |w0.live| ==> w0.live[i].name !in ours)
  }

  lemma {:induction false} ForeignAppend(live: seq<Script>, x: Script, ours: set<string>)
    requires x.name in ours
    ensures Foreign(live + [x], ours) == Foreign(live, ours)
  {
    if live != [] {
      assert (live + [x])[1..] == live[1..] + [x];
      ForeignAppend(live[1..], x, ours);
    } else {
      assert (live + [x])[1..] == [];
    }
  }

  lemma {:induction false} ForeignWithout(live: seq<Script>, name: string, ours: set<string>)
    requires name in ours
    ensures Foreign(Without(live, name), ours) == Foreign(live, ours)
  {
    if live != [] {
      ForeignWithout(live[1..], name, ours);
      var rest := Without(live[1..], name);
      if live[0].name != name {
        assert ([live[0]] + rest)[1..] == rest;
      } else {
        assert Without(live, name) == rest;
      }
    }
  }

  lemma {:induction false} ForeignAll(live: seq<Script>, ours: set<string>)
    requires forall i :: 0 <= i < |live| ==> live[i].name !in ours
    ensures Foreign(live, ours) == live
  {
    if live != [] {
      ForeignAll(live[1..], ours);
    }
  }

  lemma {:induction false} ForeignWider(live: seq<Script>, ours: set<string>, name: string)
    requires forall i :: 0 <= i < |Foreign(live, ours)| ==> Foreign(live, ours)[i].name != name
    ensures Foreign(live, ours + {name}) == Foreign(live, ours)
  {
    if live != [] {
      var f := Foreign(live, ours);
      var g := Foreign(live[1..], ours);
      if live[0].name in ours {
        assert f == g;
      } else {
        assert f[0] == live[0] && f[1..] == g;
        forall i | 0 <= i < |g| ensures g[i].name != name {
          assert g[i] == f[i + 1];
        }
      }
      ForeignWider(live[1..], ours, name);
    }
  }

  lemma ApplyKeepsOthers(w0: KWin, w: KWin, r: Request, ours: set<string>)
    requires Unused(w0, ours) && OnlyOurs(w0, w, ours) && Harmless(w0, r, ours)
    ensures OnlyOurs(w0, Apply(w, r), ours)
  {
    match r {
      case Load(name) =>
        ForeignAppend(w.live, Script(name, |w.live|), ours);
      case Unload(name) =>
        ForeignWithout(w.live, name, ours);
      case Run(_, _) =>
    }
  }

  lemma {:induction false} SettleKeepsOthers(w0: KWin, w: KWin, lands: seq<Request>, ours: set<string>)
    requires Unused(w0, ours) && OnlyOurs(w0, w, ours)
    ensures OnlyOurs(w0, Settle(w, lands), ours)
    decreases |lands|
  {
    if lands != [] {
      var r := lands[0];
      if r in w.pending {
        ApplyKeepsOthers(w0, w.(pending := w.pending - multiset{r}), r, ours);
      }
      SettleKeepsOthers(w0, Land(w, r), lands[1..], ours);
    }
  }

  /** Whatever the bus does with a harmless request, nobody else's script is touched or run. */
  lemma CallKeepsOthers(env: nat -> Fate, w0: KWin, s: Session, r: Request, ours: set<string>)
    requires Unused(w0, ours) && OnlyOurs(w0, s.kwin, ours) && Harmless(w0, r, ours)
    ensures OnlyOurs(w0, Call(env, s, r).1.kwin, ours)
  {
    SettleKeepsOthers(w0, s.kwin, env(s.calls).lands, ours);
    ApplyKeepsOthers(w0, Reached(env, s), r, ours);
  }

  /** A run that is answered with success hit a script of ours. */
  lemma RunHitsOurs(env: nat -> Fate, w0: KWin, s: Session, r: Request, ours: set<string>)
    requires Unused(w0, ours) && OnlyOurs(w0, s.kwin, ours) && Harmless(w0, r, ours) && r.Run?
    requires Call(env, s, r).0.BusOk?
    ensures |Call(env, s, r).1.kwin.ran| > |w0.ran|
  {
    SettleKeepsOthers(w0, s.kwin, env(s.calls).lands, ours);
  }

  lemma OursGrow(w0: KWin, w: KWin, ours: set<string>, name: string)
    requires OnlyOurs(w0, w, ours) && Unused(w0, {name})
    ensures OnlyOurs(w0, w, ours + {name})
  {
    ForeignWider(w.live, ours, name);
    forall r | r in w.pending ensures Harmless(w0, r, ours + {name}) {
      assert Harmless(w0, r, ours);
    }
  }

  // ----- Names and files

  function Name(first: string, attempt: nat): string
    requires attempt < MAX_LOAD_ATTEMPTS
  {
    if attempt == 0 then first else first + "-" + ['0' + attempt as char]
  }

  lemma NamesAre(first: string)
    ensures Name(first, 0) == first && Name(first, 1) == first + "-1"
    ensures Name(first, 2) == first + "-2" && Name(first, 3) == first + "-3" && MAX_LOAD_ATTEMPTS == 4
  {
  }

  function Names(first: string, count: nat): (r: seq<string>)
    requires count <= MAX_LOAD_ATTEMPTS
    ensures |r| == count && forall k :: 0 <= k < count ==> r[k] == Name(first, k)
  {
    seq(count, k requires 0 <= k < count => Name(first, k))
  }

  function SetOf(names: seq<string>): set<string> { set n | n in names }

  /** No two attempts load the same name. */
  lemma NamesDiffer(first: string, count: nat)
    requires count <= MAX_LOAD_ATTEMPTS
    ensures forall j, k :: 0 <= j < k < count ==> Names(first, count)[j] != Names(first, count)[k]
  {
    forall j, k | 0 <= j < k < count ensures Names(first, count)[j] != Names(first, count)[k] {
      TwoNamesDiffer(first, j, k);
    }
  }

  lemma TwoNamesDiffer(first: string, j: nat, k: nat)
    requires j < k < MAX_LOAD_ATTEMPTS
    ensures Name(first, j) != Name(first, k)
  {
    assert |Name(first, k)| == |first| + 2;
    if j > 0 {
      assert Name(first, j)[|first| + 1] != Name(first, k)[|first| + 1];
    } else {
      assert |Name(first, j)| == |first|;
    }
  }

  lemma SetOfNext(first: string, k: nat)
    requires k < MAX_LOAD_ATTEMPTS
    ensures SetOf(Names(first, k + 1)) == SetOf(Names(first, k)) + {Name(first, k)}
    ensures Names(first, k + 1) == Names(first, k) + [Name(first, k)]
  {
    assert Names(first, k + 1) == Names(first, k) + [Name(first, k)];
  }

  /** Writing the exclusive script file: done, not even created, or created and removed again. */
  datatype FileFate = Saved | NotCreated | CutShort

  // ----- One attempt

  datatype Attempt = Collided | Ended(ok: bool)

  /** What one attempt may send: the load of its name, and runs on numbers that were free. */
  ghost predicate Sends(s: Session, t: Session, name: string, taken: set<nat>) {
    && s.log <= t.log
    && (forall i :: |s.log| <= i < |t.log| ==>
          t.log[i].request == Load(name) || (t.log[i].request.Run? && t.log[i].request.id !in taken))
  }

  ghost predicate Reliable(env: nat -> Fate) { forall k :: env(k).delivery == Done(true) }

  lemma {:induction false} NothingPending(w: KWin, lands: seq<Request>)
    requires w.pending == multiset{}
    ensures Settle(w, lands) == w
    decreases |lands|
  {
    if lands != [] {
      NothingPending(w, lands[1..]);
    }
  }

  lemma ReliableCall(env: nat -> Fate, s: Session, r: Request)
    requires Reliable(env) && s.kwin.pending == multiset{}
    ensures Call(env, s, r).0.BusOk? <==> r.Run? ==> Exists(s.kwin, r.bare, r.id)
    ensures r.Load? ==> Call(env, s, r).0 == BusOk(Some(|s.kwin.live|))
    ensures Call(env, s, r).1.kwin == Apply(s.kwin, r)
  {
    assert env(s.calls).delivery == Done(true);
    NothingPending(s.kwin, env(s.calls).lands);
  }

  /** `Script.run` on both layouts' paths, of which KWin knows one. */
  method RunBoth(env: nat -> Fate, ghost w0: KWin, s: Session, id: nat, ghost ours: set<string>)
    returns (ok: bool, t: Session)
    requires Unused(w0, ours) && OnlyOurs(w0, s.kwin, ours) && id !in w0.objects
    ensures OnlyOurs(w0, t.kwin, ours)
    ensures s.log <= t.log && forall i :: |s.log| <= i < |t.log| ==> t.log[i].request in {Run(false, id), Run(true, id)}
    ensures t.created == s.created && t.removed == s.removed
    ensures ok ==> |t.kwin.ran| > |w0.ran|
    ensures Reliable(env) && s.kwin.pending == multiset{} ==>
              (ok <==> id in s.kwin.objects) && t.kwin == Apply(s.kwin, Run(s.kwin.bare, id))
  {
    var call := Call(env, s, Run(false, id));
    CallKeepsOthers(env, w0, s, Run(false, id), ours);
    t := call.1;
    ok := call.0.BusOk?;
    if Reliable(env) && s.kwin.pending == multiset{} {
      ReliableCall(env, s, Run(false, id));
    }
    if ok {
      RunHitsOurs(env, w0, s, Run(false, id), ours);
      return;
    }
    ghost var u := t;
    call := Call(env, t, Run(true, id));
    CallKeepsOthers(env, w0, t, Run(true, id), ours);
    t := call.1;
    ok := call.0.BusOk?;
    if Reliable(env) && s.kwin.pending == multiset{} {
      ReliableCall(env, u, Run(true, id));
    }
    if ok {
      RunHitsOurs(env, w0, u, Run(true, id), ours);
    }
  }

  method LoadAndRun(env: nat -> Fate, ghost w0: KWin, s: Session, file: FileFate, name: string, taken: set<nat>,
                    ghost ours: set<string>)
    returns (result: Attempt, pushed: bool, t: Session)
    requires Unused(w0, ours) && OnlyOurs(w0, s.kwin, ours) && name in ours && w0.objects.Keys <= taken
    ensures OnlyOurs(w0, t.kwin, ours) && Sends(s, t, name, taken)
    ensures pushed <==> file == Saved
    ensures !pushed ==> result == Ended(false) && t.kwin == s.kwin && t.log == s.log
    ensures t.created == s.created + if file == NotCreated then {} else {name}
    ensures t.removed == s.removed + if file == CutShort then {name} else {}
    ensures result == Ended(true) ==> |t.kwin.ran| > |w0.ran|
    ensures Reliable(env) && s.kwin.pending == multiset{} && pushed ==>
              var id := |s.kwin.live|;
              var loaded := Apply(s.kwin, Load(name));
              if id in taken then result == Collided && t.kwin == loaded
              else result == Ended(true) && t.kwin == Apply(loaded, Run(loaded.bare, id))
  {
    t := s;
    if file == NotCreated {
      return Ended(false), false, t;
    }
    t := t.(created := t.created + {name});
    if file == CutShort {
      t := t.(removed := t.removed + {name});
      return Ended(false), false, t;
    }
    pushed := true;
    ghost var u := t;
    var call := Call(env, t, Load(name));
    CallKeepsOthers(env, w0, t, Load(name), ours);
    t := call.1;
    if Reliable(env) && s.kwin.pending == multiset{} {
      ReliableCall(env, u, Load(name));
    }
    if !call.0.BusOk? || call.0.id.None? {
      return Ended(false), pushed, t;
    }
    var id := call.0.id.value;
    if id in taken {
      return Collided, pushed, t;
    }
    var ok;
    ok, t := RunBoth(env, w0, t, id, ours);
    result := Ended(ok);
  }

  // ----- The sweep

  /** The unloads of one name: a second one after a failed run, and never fewer than three unless the
      last one was answered with success. */
  ghost predicate IsSweep(unloads: seq<Sent>, name: string, failed: bool) {
    && 1 <= |unloads| <= 3
    && (forall i :: 0 <= i < |unloads| ==> unloads[i].request == Unload(name))
    && (|unloads| < 3 ==> unloads[|unloads| - 1].ok)
    && (failed ==> |unloads| >= 2)
    && (|unloads| == 3 ==> !unloads[1].ok)
    && (|unloads| == 2 && !failed ==> !unloads[0].ok)
  }

  ghost predicate Swept(log: seq<Sent>, name: string, failed: bool) {
    exists i, j :: 0 <= i <= j <= |log| && IsSweep(log[i..j], name, failed)
  }

  predicate Absent(w: KWin, name: string) {
    (forall i :: 0 <= i < |w.live| ==> w.live[i].name != name) && forall id :: id in w.objects ==> w.objects[id] != name
  }

  lemma {:induction false} WithoutMembers(live: seq<Script>, name: string)
    ensures forall x :: x in Without(live, name) <==> x in live && x.name != name
  {
    if live != [] {
      WithoutMembers(live[1..], name);
    }
  }

  lemma UnloadRemoves(w: KWin, name: string, other: string)
    ensures Absent(Apply(w, Unload(name)), name)
    ensures Absent(w, other) ==> Absent(Apply(w, Unload(name)), other)
  {
    WithoutMembers(w.live, name);
    var v := Apply(w, Unload(name));
    forall i | 0 <= i < |v.live| ensures v.live[i].name != name && v.live[i] in w.live {
      assert v.live[i] in v.live;
    }
  }

  lemma {:induction false} SettleRuns(w: KWin, lands: seq<Request>)
    ensures w.ran <= Settle(w, lands).ran
    decreases |lands|
  {
    if lands != [] {
      LandRuns(w, lands[0]);
      SettleRuns(Land(w, lands[0]), lands[1..]);
    }
  }

  lemma LandRuns(w: KWin, r: Request)
    ensures w.ran <= Land(w, r).ran
  {
  }

  method UnloadOnce(env: nat -> Fate, ghost w0: KWin, s: Session, name: string, ghost ours: set<string>)
    returns (ok: bool, t: Session)
    requires Unused(w0, ours) && OnlyOurs(w0, s.kwin, ours) && name in ours
    ensures OnlyOurs(w0, t.kwin, ours)
    ensures t.log == s.log + [Sent(Unload(name), ok)] && t.created == s.created && t.removed == s.removed
    ensures |t.kwin.ran| >= |s.kwin.ran|
    ensures Reliable(env) && s.kwin.pending == multiset{} ==> ok && t.kwin == Apply(s.kwin, Unload(name))
  {
    var call := Call(env, s, Unload(name));
    CallKeepsOthers(env, w0, s, Unload(name), ours);
    SettleRuns(s.kwin, env(s.calls).lands);
    if Reliable(env) && s.kwin.pending == multiset{} {
      ReliableCall(env, s, Unload(name));
    }
    ok := call.0.BusOk?;
    t := call.1;
  }

  /** The sleep before a third unload lets a late load land first; it is part of what `env` decides. */
  method SweepOne(env: nat -> Fate, ghost w0: KWin, s: Session, name: string, failed: bool, ghost ours: set<string>)
    returns (t: Session)
    requires Unused(w0, ours) && OnlyOurs(w0, s.kwin, ours) && name in ours
    ensures OnlyOurs(w0, t.kwin, ours)
    ensures s.log <= t.log && IsSweep(t.log[|s.log|..], name, failed)
    ensures t.created == s.created && t.removed == s.removed + {name}
    ensures |t.kwin.ran| >= |s.kwin.ran|
    ensures Reliable(env) && s.kwin.pending == multiset{} ==> Cleared(s.kwin, t.kwin, [name])
  {
    var ok;
    ok, t := UnloadOnce(env, w0, s, name, ours);
    forall n ensures Reliable(env) && s.kwin.pending == multiset{} ==>
                       Absent(t.kwin, name) && (Absent(s.kwin, n) ==> Absent(t.kwin, n)) {
      UnloadRemoves(s.kwin, name, n);
    }
    if !ok || failed {
      ghost var u := t;
      ok, t := UnloadOnce(env, w0, t, name, ours);
      forall n ensures Reliable(env) && s.kwin.pending == multiset{} ==>
                         Absent(t.kwin, name) && (Absent(u.kwin, n) ==> Absent(t.kwin, n)) {
        UnloadRemoves(u.kwin, name, n);
      }
      if !ok {
        ok, t := UnloadOnce(env, w0, t, name, ours);
      }
    }
    t := t.(removed := t.removed + {name});
  }

  method Sweep(env: nat -> Fate, ghost w0: KWin, s: Session, loaded: seq<string>, failed: bool, ghost ours: set<string>)
    returns (t: Session)
    requires Unused(w0, ours) && OnlyOurs(w0, s.kwin, ours) && SetOf(loaded) <= ours
    ensures OnlyOurs(w0, t.kwin, ours)
    ensures OnlyUnloads(s.log, t.log)
    ensures forall n :: n in loaded ==> Swept(t.log, n, failed)
    ensures t.created == s.created && t.removed == s.removed + SetOf(loaded)
    ensures |t.kwin.ran| >= |s.kwin.ran|
    ensures Reliable(env) && s.kwin.pending == multiset{} ==> Cleared(s.kwin, t.kwin, loaded)
  {
    t := s;
    var i := 0;
    while i < |loaded|
      invariant 0 <= i <= |loaded|
      invariant OnlyOurs(w0, t.kwin, ours)
      invariant OnlyUnloads(s.log, t.log)
      invariant forall k :: 0 <= k < i ==> Swept(t.log, loaded[k], failed)
      invariant t.created == s.created && t.removed == s.removed + SetOf(loaded[..i])
      invariant |t.kwin.ran| >= |s.kwin.ran|
      invariant Reliable(env) && s.kwin.pending == multiset{} ==> Cleared(s.kwin, t.kwin, loaded[..i])
    {
      ghost var u := t;
      assert loaded[i] in SetOf(loaded);
      t := SweepOne(env, w0, t, loaded[i], failed, ours);
      SweptGrows(u.log, t.log, loaded, i, failed);
      OnlyUnloadsGrow(s.log, u.log, t.log, loaded[i], failed);
      if Reliable(env) && s.kwin.pending == multiset{} {
        ClearedNext(s.kwin, u.kwin, t.kwin, loaded[..i], loaded[i]);
      }
      assert loaded[..i + 1] == loaded[..i] + [loaded[i]];
      i := i + 1;
    }
    assert loaded[..i] == loaded;
  }

  /** Past `log` there are only unloads. */
  ghost predicate OnlyUnloads(log: seq<Sent>, longer: seq<Sent>) {
    log <= longer && forall k :: |log| <= k < |longer| ==> longer[k].request.Unload?
  }

  lemma OnlyUnloadsGrow(log: seq<Sent>, mid: seq<Sent>, longer: seq<Sent>, name: string, failed: bool)
    requires OnlyUnloads(log, mid) && mid <= longer && IsSweep(longer[|mid|..], name, failed)
    ensures OnlyUnloads(log, longer)
  {
    forall k | |log| <= k < |longer| ensures longer[k].request.Unload? {
      if k < |mid| {
        assert longer[k] == mid[k];
      } else {
        assert longer[k] == longer[|mid|..][k - |mid|];
      }
    }
  }

  /** From `w` to `v` no script ran, and these names, like all names absent before, are gone. */
  ghost predicate Cleared(w: KWin, v: KWin, names: seq<string>) {
    && v.pending == multiset{} && v.ran == w.ran
    && forall n :: n in names || Absent(w, n) ==> Absent(v, n)
  }

  lemma ClearedNext(w: KWin, u: KWin, v: KWin, names: seq<string>, name: string)
    requires Cleared(w, u, names) && Cleared(u, v, [name])
    ensures Cleared(w, v, names + [name])
  {
    forall n | n in names + [name] || Absent(w, n) ensures Absent(v, n) {
      assert n in [name] || Absent(u, n);
    }
  }

  lemma SweptGrows(log: seq<Sent>, longer: seq<Sent>, loaded: seq<string>, i: nat, failed: bool)
    requires log <= longer && i < |loaded| && IsSweep(longer[|log|..], loaded[i], failed)
    requires forall k :: 0 <= k < i ==> Swept(log, loaded[k], failed)
    ensures forall k :: 0 <= k <= i ==> Swept(longer, loaded[k], failed)
  {
    assert longer[|log|..] == longer[|log|..|longer|];
    forall k | 0 <= k < i ensures Swept(longer, loaded[k], failed) {
      var a, b :| 0 <= a <= b <= |log| && IsSweep(log[a..b], loaded[k], failed);
      assert longer[a..b] == log[a..b];
    }
  }

  // ----- A whole call

  /** The numbers in use on either layout, or nothing when the bus cannot be read. */
  method TakenScriptIds(env: nat -> Fate, s: Session) returns (taken: Option<set<nat>>, t: Session)
    requires s.kwin.pending == multiset{}
    ensures t.kwin == s.kwin && t.log == s.log && t.created == s.created && t.removed == s.removed
    ensures taken.Some? <==> env(s.calls).delivery.Done? && env(s.calls + 1).delivery.Done?
    ensures taken.Some? ==> taken.value == s.kwin.objects.Keys
  {
    NothingPending(s.kwin, env(s.calls).lands);
    NothingPending(s.kwin, env(s.calls + 1).lands);
    var scripting := Introspect(env, s, false);
    t := scripting.1;
    if scripting.0.None? {
      return None, t;
    }
    var root := Introspect(env, t, true);
    t := root.1;
    taken := if root.0.None? then None else Some(scripting.0.value + root.0.value);
  }

  /** The number KWin hands out after `k` more loads is somebody's already. */
  predicate Clash(w: KWin, k: nat) { |w.live| + k in w.objects }

  /** After `k` collisions KWin holds `k` more scripts and no more objects. */
  ghost predicate Collisions(w0: KWin, w: KWin, k: nat) {
    && w.pending == multiset{} && w.objects == w0.objects && w.ran == w0.ran
    && |w.live| == |w0.live| + k
    && forall j :: 0 <= j < k ==> Clash(w0, j)
  }

  /** With every name of ours gone, KWin is as it was. */
  lemma BackAsItWas(w0: KWin, w: KWin, ours: set<string>)
    requires OnlyOurs(w0, w, ours) && forall n :: n in ours ==> Absent(w, n)
    ensures w.live == w0.live && w.objects == w0.objects
  {
    forall i | 0 <= i < |w.live| ensures w.live[i].name !in ours {
      assert w.live[i].name in ours ==> Absent(w, w.live[i].name);
    }
    ForeignAll(w.live, ours);
    forall id ensures id in w.objects <==> id in w0.objects {
      assert id in w.objects && w.objects[id] in ours ==> Absent(w, w.objects[id]);
    }
  }

  ghost predicate SomeFree(w: KWin) { exists k :: 0 <= k < MAX_LOAD_ATTEMPTS && !Clash(w, k) }

  /** On a working bus an attempt either adds one more collision or runs the script just loaded. */
  lemma CollisionStep(w0: KWin, w: KWin, k: nat, name: string)
    requires Collisions(w0, w, k)
    ensures var loaded := Apply(w, Load(name));
            if |w.live| in w0.objects then Collisions(w0, loaded, k + 1)
            else
              var ran := Apply(loaded, Run(loaded.bare, |w.live|));
              !Clash(w0, k) && ran.pending == multiset{} && ran.ran == w0.ran + [name]
  {
    assert |w.live| == |w0.live| + k;
  }

  /** What holds between attempts: these names were loaded, and only free numbers were run. */
  ghost predicate Loading(s: Session, t: Session, first: string, loaded: seq<string>, taken: set<nat>) {
    && |loaded| <= MAX_LOAD_ATTEMPTS && loaded == Names(first, |loaded|)
    && OnlyOurs(s.kwin, t.kwin, SetOf(loaded))
    && t.created == SetOf(loaded) + t.removed
    && RunsFree(t.log, taken)
  }

  ghost predicate RunsFree(log: seq<Sent>, taken: set<nat>) {
    forall i :: 0 <= i < |log| && log[i].request.Run? ==> log[i].request.id !in taken
  }

  ghost predicate AllWorks(env: nat -> Fate, files: nat -> FileFate) { Reliable(env) && forall k :: files(k) == Saved }

  lemma SendsRunsFree(s: Session, t: Session, name: string, taken: set<nat>)
    requires RunsFree(s.log, taken) && Sends(s, t, name, taken)
    ensures RunsFree(t.log, taken)
  {
    forall i | 0 <= i < |s.log| ensures t.log[i] == s.log[i] {
    }
  }

  lemma LoadingNext(s: Session, t0: Session, t: Session, first: string, loaded: seq<string>, names: seq<string>,
                    taken: set<nat>, pushed: bool, file: FileFate, name: string)
    requires |loaded| < MAX_LOAD_ATTEMPTS && Loading(s, t0, first, loaded, taken) && name == Name(first, |loaded|)
    requires names == if pushed then loaded + [name] else loaded
    requires pushed <==> file == Saved
    requires if pushed then OnlyOurs(s.kwin, t.kwin, SetOf(Names(first, |loaded| + 1))) else t.kwin == t0.kwin
    requires Sends(t0, t, name, taken)
    requires t.created == t0.created + if file == NotCreated then {} else {name}
    requires t.removed == t0.removed + if file == CutShort then {name} else {}
    ensures Loading(s, t, first, names, taken)
  {
    SendsRunsFree(t0, t, name, taken);
    if pushed {
      SetOfNext(first, |loaded|);
      assert names == Names(first, |loaded| + 1);
      FilesNext(t0.created, t0.removed, SetOf(loaded), name);
    } else {
      FilesNext(t0.created, t0.removed, SetOf(loaded), name);
    }
  }

  lemma FilesNext(created: set<string>, removed: set<string>, loaded: set<string>, name: string)
    requires created == loaded + removed
    ensures created + {name} == loaded + {name} + removed == loaded + (removed + {name})
    ensures created + {} == created && removed + {} == removed
  {
  }

  /** How attempt `k` ends when everything works. */
  ghost predicate Worked(w0: KWin, w: KWin, k: nat, names: seq<string>, result: Attempt)
    requires |names| == k + 1
  {
    if Clash(w0, k) then result == Collided && Collisions(w0, w, k + 1)
    else result == Ended(true) && w.pending == multiset{} && w.ran == w0.ran + [names[k]]
  }

  /** How the attempts end when everything works. */
  ghost predicate AllWorked(w0: KWin, w: KWin, loaded: seq<string>, ok: bool) {
    && w.pending == multiset{} && (ok <==> SomeFree(w0)) && (ok ==> loaded != [])
    && w.ran == w0.ran + if ok then [loaded[|loaded| - 1]] else []
  }

  lemma LastAttempt(w0: KWin, w: KWin, k: nat, names: seq<string>, result: Attempt)
    requires k < MAX_LOAD_ATTEMPTS && |names| == k + 1 && Worked(w0, w, k, names, result) && result.Ended?
    ensures AllWorked(w0, w, names, result.ok)
  {
    assert !Clash(w0, k);
  }

  /** One turn of the loop. */
  method NextAttempt(env: nat -> Fate, file: FileFate, ghost s: Session, t0: Session, first: string,
                     loaded: seq<string>, taken: set<nat>)
    returns (result: Attempt, names: seq<string>, t: Session)
    requires Unused(s.kwin, SetOf(Names(first, MAX_LOAD_ATTEMPTS))) && taken == s.kwin.objects.Keys
    requires |loaded| < MAX_LOAD_ATTEMPTS && Loading(s, t0, first, loaded, taken)
    ensures Loading(s, t, first, names, taken)
    ensures result == Ended(true) ==> |t.kwin.ran| > |s.kwin.ran|
    ensures result.Collided? ==> |names| == |loaded| + 1
    ensures Reliable(env) && file == Saved && Collisions(s.kwin, t0.kwin, |loaded|) ==>
              && |names| == |loaded| + 1
              && Worked(s.kwin, t.kwin, |loaded|, names, result)
  {
    var name := Name(first, |loaded|);
    SetOfNext(first, |loaded|);
    ghost var ours := SetOf(Names(first, |loaded| + 1));
    NamesUnused(s.kwin, first, |loaded|);
    OursGrow(s.kwin, t0.kwin, SetOf(loaded), name);
    var pushed;
    result, pushed, t := LoadAndRun(env, s.kwin, t0, file, name, taken, ours);
    names := if pushed then loaded + [name] else loaded;
    LoadingNext(s, t0, t, first, loaded, names, taken, pushed, file, name);
    if Reliable(env) && file == Saved && Collisions(s.kwin, t0.kwin, |loaded|) {
      CollisionStep(s.kwin, t0.kwin, |loaded|, name);
    }
  }

  /** The attempts, until one does not collide. */
  method LoadUntilFree(env: nat -> Fate, files: nat -> FileFate, s: Session, first: string, taken: set<nat>)
    returns (ok: bool, loaded: seq<string>, t: Session)
    requires Unused(s.kwin, SetOf(Names(first, MAX_LOAD_ATTEMPTS))) && taken == s.kwin.objects.Keys
    requires s.kwin.pending == multiset{} && s.created == s.removed == {} && s.log == []
    ensures Loading(s, t, first, loaded, taken)
    ensures ok ==> |t.kwin.ran| > |s.kwin.ran|
    ensures AllWorks(env, files) ==> AllWorked(s.kwin, t.kwin, loaded, ok)
  {
    t := s;
    loaded := [];
    ForeignAll(s.kwin.live, {});
    assert SetOf(loaded) == {};
    var attempt := 0;
    while attempt < MAX_LOAD_ATTEMPTS
      invariant attempt == |loaded| <= MAX_LOAD_ATTEMPTS
      invariant Loading(s, t, first, loaded, taken)
      invariant AllWorks(env, files) ==> Collisions(s.kwin, t.kwin, attempt)
    {
      var result;
      result, loaded, t := NextAttempt(env, files(attempt), s, t, first, loaded, taken);
      if result.Ended? {
        ok := result.ok;
        if AllWorks(env, files) {
          LastAttempt(s.kwin, t.kwin, attempt, loaded, result);
        }
        return;
      }
      attempt := attempt + 1;
    }
    ok := false;
  }

  lemma NamesUnused(w0: KWin, first: string, attempt: nat)
    requires attempt < MAX_LOAD_ATTEMPTS && Unused(w0, SetOf(Names(first, MAX_LOAD_ATTEMPTS)))
    ensures Unused(w0, SetOf(Names(first, attempt + 1))) && Unused(w0, {Name(first, attempt)})
  {
    var all := Names(first, MAX_LOAD_ATTEMPTS);
    assert all[attempt] in all;
    forall n | n in SetOf(Names(first, attempt + 1)) ensures n in SetOf(all) {
      var k :| 0 <= k < attempt + 1 && Names(first, attempt + 1)[k] == n;
      assert all[k] in all;
    }
  }

  method RunKWinScriptWith(env: nat -> Fate, files: nat -> FileFate, w: KWin, first: string)
    returns (ok: bool, loaded: seq<string>, t: Session)
    requires w.pending == multiset{} && Unused(w, SetOf(Names(first, MAX_LOAD_ATTEMPTS)))
    // Only scripts this call loaded ever ran, and everybody else's stayed in place.
    ensures |loaded| <= MAX_LOAD_ATTEMPTS && loaded == Names(first, |loaded|)
    ensures forall j, k :: 0 <= j < k < |loaded| ==> loaded[j] != loaded[k]
    ensures OnlyOurs(w, t.kwin, SetOf(loaded))
    ensures ok ==> |t.kwin.ran| > |w.ran|
    ensures RunsFree(t.log, w.objects.Keys)
    // Whatever happened, names are unloaded and files removed.
    ensures forall n :: n in loaded ==> Swept(t.log, n, !ok)
    ensures t.removed == t.created
    // An unreadable bus means nothing is loaded.
    ensures !(env(0).delivery.Done? && env(1).delivery.Done?) ==> !ok && t.log == [] && t.created == {} && t.kwin == w
    // On a bus that works.
    ensures AllWorks(env, files) ==>
              && (ok <==> SomeFree(w))
              && t.kwin.live == w.live && t.kwin.objects == w.objects
              && (ok ==> loaded != []) && t.kwin.ran == w.ran + if ok then [loaded[|loaded| - 1]] else []
  {
    t := Session(w, 0, [], {}, {});
    var taken;
    taken, t := TakenScriptIds(env, t);
    loaded := [];
    if taken.None? {
      ForeignAll(w.live, {});
      assert SetOf(loaded) == {};
      return false, loaded, t;
    }
    ok, loaded, t := LoadUntilFree(env, files, t, first, taken.value);
    LoadedUnused(w, first, |loaded|);
    NamesDiffer(first, |loaded|);
    t := Sweep(env, w, t, loaded, !ok, SetOf(loaded));
    if AllWorks(env, files) {
      BackAsItWas(w, t.kwin, SetOf(loaded));
    }
  }

  lemma LoadedUnused(w0: KWin, first: string, count: nat)
    requires count <= MAX_LOAD_ATTEMPTS && Unused(w0, SetOf(Names(first, MAX_LOAD_ATTEMPTS)))
    ensures Unused(w0, SetOf(Names(first, count)))
  {
    if count > 0 {
      NamesUnused(w0, first, count - 1);
    }
  }
}
