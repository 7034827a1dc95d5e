/** The global bandwidth limiter: a token bucket whose rate may change at run
    time. Times are seconds and tokens are bytes, both real numbers. */
module Bandwidth {
  import opened Wrappers

  const MAX_ACQUIRE_QUANTUM: nat := 65536
  const CONTROL_POLL: real := 0.05

  /** `rate` is `None` while unlimited. A limited bucket has a positive rate. */
  datatype Bucket = Bucket(rate: Option<nat>, tokens: real, capacity: real, lastRefill: real)

  function Min(x: real, y: real): real { if x <= y then x else y }

  function Max(x: real, y: real): real { if x <= y then y else x }

  function NormalizeRate(bps: Option<nat>): Option<nat> {
    if bps == Some(0) then None else bps
  }

  function CapacityFor(rate: Option<nat>): real {
    match rate
    case None => 0.0
    case Some(r) => Max(2.0 * r as real, MAX_ACQUIRE_QUANTUM as real)
  }

  function New(bps: Option<nat>, now: real): Bucket {
    var rate := NormalizeRate(bps);
    Bucket(rate, CapacityFor(rate), CapacityFor(rate), now)
  }

  /** Unlimited buckets are not refilled, so their `lastRefill` goes stale. */
  function Refill(b: Bucket, now: real): Bucket {
    if b.rate.None? || now <= b.lastRefill then b
    else AddTokens(b, Gain(b, now), now)
  }

  /** What the time since the last refill is worth. */
  function Gain(b: Bucket, now: real): real
    requires b.rate.Some?
  { Worth(now - b.lastRefill, b.rate.value as real) }

  /** Bytes a rate earns in `d` seconds. */
  function Worth(d: real, rate: real): real { d * rate }

  function AddTokens(b: Bucket, gain: real, now: real): Bucket {
    b.(tokens := Min(b.tokens + gain, b.capacity), lastRefill := now)
  }

  function SetLimit(b: Bucket, now: real, bps: Option<nat>): Bucket {
    var rate := NormalizeRate(bps);
    var r := Refill(b, now);
    Bucket(rate, Min(r.tokens, CapacityFor(rate)), CapacityFor(rate), r.lastRefill)
  }

  predicate Granted(b: Bucket, now: real, need: real) { b.rate.None? || Refill(b, now).tokens >= need }

  function TryTake(b: Bucket, now: real, need: real): Bucket {
    var r := Refill(b, now);
    if b.rate.Some? && r.tokens >= need then r.(tokens := r.tokens - need) else r
  }

  /** How long a refused taker sleeps before it tries again. */
  function WaitFor(b: Bucket, need: real): real
    requires b.rate.Some? && b.rate.value > 0
  {
    Min(2.0, Max(0.001, (need - b.tokens) / b.rate.value as real))
  }

  ghost predicate Valid(b: Bucket) {
    && (b.rate.Some? ==> b.rate.value > 0)
    && b.capacity == CapacityFor(b.rate)
    && 0.0 <= b.tokens <= b.capacity
  }

  // ----- Runs: any interleaving of takers and limit changes

  datatype Event =
    | Take(owner: nat, at: real, need: nat)
    | Limit(at: real, bps: Option<nat>)

  function Apply(b: Bucket, e: Event): Bucket {
    match e
    case Take(_, at, need) => TryTake(b, at, need as real)
    case Limit(at, bps) => SetLimit(b, at, bps)
  }

  function Run(b: Bucket, events: seq<Event>): Bucket
    decreases |events|
  {
    if events == [] then b else Run(Apply(b, events[0]), events[1..])
  }

  /** Bytes a taker is granted under a limit. */
  function Charge(b: Bucket, at: real, need: nat): real {
    if b.rate.Some? && Granted(b, at, need as real) then need as real else 0.0
  }

  function ChargeOf(b: Bucket, e: Event): real { if e.Take? then Charge(b, e.at, e.need) else 0.0 }

  function Charged(b: Bucket, events: seq<Event>): real
    decreases |events|
  {
    if events == [] then 0.0 else ChargeOf(b, events[0]) + Charged(Apply(b, events[0]), events[1..])
  }

  ghost predicate InOrder(from: real, events: seq<Event>, to: real)
    decreases |events|
  {
    if events == [] then from <= to else from <= events[0].at && InOrder(events[0].at, events[1..], to)
  }

  function RateOf(b: Bucket): real { if b.rate.None? then 0.0 else b.rate.value as real }

  /** Bytes the limit in force earns in `d` seconds. */
  function EarnedIn(b: Bucket, d: real): real { Worth(d, RateOf(b)) }

  /** Going from unlimited to limited may add one full bucket: the refill time is stale. */
  function Burst(b: Bucket, e: Event): real {
    if b.rate.None? && e.Limit? then CapacityFor(NormalizeRate(e.bps)) else 0.0
  }

  /** Bytes the running limits let through between two times. */
  function Earned(b: Bucket, from: real, events: seq<Event>, to: real): real
    decreases |events|
  {
    if events == [] then EarnedIn(b, to - from)
    else
      var e := events[0];
      EarnedIn(b, e.at - from) + Burst(b, e) + Earned(Apply(b, e), e.at, events[1..], to)
  }

  /** Tokens a refill at time `t` would leave in the bucket. */
  function Potential(b: Bucket, t: real): real { Refill(b, t).tokens }

  lemma WorthSplit(x: real, y: real, r: real)
    ensures Worth(x + y, r) == Worth(x, r) + Worth(y, r)
  {
  }

  lemma WorthNonNegative(d: real, r: real)
    requires d >= 0.0 && r >= 0.0
    ensures Worth(d, r) >= 0.0 && (d == 0.0 ==> Worth(d, r) == 0.0)
  {
  }

  lemma RefillKeepsValid(b: Bucket, t: real)
    requires Valid(b)
    ensures Valid(Refill(b, t)) && Potential(b, t) >= b.tokens
  {
    if b.rate.Some? && b.lastRefill < t {
      WorthNonNegative(t - b.lastRefill, b.rate.value as real);
      AddTokensKeepsValid(b, Gain(b, t), t);
    }
  }

  lemma AddTokensKeepsValid(b: Bucket, gain: real, t: real)
    requires Valid(b) && gain >= 0.0
    ensures Valid(AddTokens(b, gain, t)) && AddTokens(b, gain, t).tokens >= b.tokens
  {
  }

  lemma PotentialGrowsByRate(b: Bucket, from: real, to: real)
    requires Valid(b) && from <= to
    ensures Valid(Refill(b, to))
    ensures 0.0 <= Potential(b, to) <= Potential(b, from) + EarnedIn(b, to - from)
    ensures from == to ==> EarnedIn(b, to - from) == 0.0
  {
    RefillKeepsValid(b, to);
    WorthNonNegative(to - from, RateOf(b));
    if b.rate.Some? {
      var r := b.rate.value as real;
      if b.lastRefill < from {
        WorthSplit(from - b.lastRefill, to - from, r);
        assert from - b.lastRefill + (to - from) == to - b.lastRefill;
        assert Gain(b, to) == Gain(b, from) + EarnedIn(b, to - from);
      } else if b.lastRefill < to {
        WorthNonNegative(b.lastRefill - from, r);
        WorthSplit(b.lastRefill - from, to - b.lastRefill, r);
        assert b.lastRefill - from + (to - b.lastRefill) == to - from;
        assert Gain(b, to) <= EarnedIn(b, to - from);
      }
    }
  }

  lemma EventKeepsBudget(b: Bucket, from: real, e: Event)
    requires Valid(b) && from <= e.at
    ensures Valid(Apply(b, e))
    ensures ChargeOf(b, e) + Potential(Apply(b, e), e.at) <= Potential(b, from) + EarnedIn(b, e.at - from) + Burst(b, e)
  {
    PotentialGrowsByRate(b, from, e.at);
    PotentialGrowsByRate(Apply(b, e), e.at, e.at);
  }

  /** Over any run of takers and limit changes, what is granted under a limit
      plus what is left never exceeds what was there plus what was earned. */
  lemma {:induction false} ChargesNeverExceedEarnings(b: Bucket, from: real, events: seq<Event>, to: real)
    requires Valid(b) && InOrder(from, events, to)
    ensures Valid(Run(b, events))
    ensures Charged(b, events) + Potential(Run(b, events), to) <= Potential(b, from) + Earned(b, from, events, to)
    decreases |events|
  {
    if events == [] {
      PotentialGrowsByRate(b, from, to);
    } else {
      var e := events[0];
      EventKeepsBudget(b, from, e);
      ChargesNeverExceedEarnings(Apply(b, e), e.at, events[1..], to);
    }
  }

  lemma EarnedSplit(b: Bucket, c: Bucket, x: real, y: real)
    requires b.rate == c.rate
    ensures EarnedIn(b, x) + EarnedIn(c, y) == EarnedIn(b, x + y)
  {
    WorthSplit(x, y, RateOf(b));
  }

  lemma {:induction false} EarnedAtConstantRate(b: Bucket, from: real, events: seq<Event>, to: real)
    requires b.rate.Some?
    requires forall i :: 0 <= i < |events| ==> events[i].Take? || NormalizeRate(events[i].bps) == b.rate
    ensures Earned(b, from, events, to) == EarnedIn(b, to - from)
    decreases |events|
  {
    if events != [] {
      var e := events[0];
      var c := Apply(b, e);
      assert c.rate == b.rate;
      EarnedAtConstantRate(c, e.at, events[1..], to);
      EarnedSplit(b, c, e.at - from, to - e.at);
      assert e.at - from + (to - e.at) == to - from;
    }
  }

  lemma WindowBound(b: Bucket, from: real, events: seq<Event>, to: real, earned: real)
    requires Valid(b) && InOrder(from, events, to)
    requires Earned(b, from, events, to) <= earned
    ensures Charged(b, events) <= b.capacity + earned
  {
    ChargesNeverExceedEarnings(b, from, events, to);
    PotentialGrowsByRate(b, from, from);
    PotentialGrowsByRate(Run(b, events), to, to);
  }

  /** The rate bound: in any window during which the limit stays `r`, all takers
      together get at most one bucket plus `r` per second, whatever the bucket's
      past (an unlimited period with a stale refill time included). */
  lemma RateBound(b: Bucket, from: real, events: seq<Event>, to: real)
    requires Valid(b) && b.rate.Some? && InOrder(from, events, to)
    requires forall i :: 0 <= i < |events| ==> events[i].Take? || NormalizeRate(events[i].bps) == b.rate
    ensures Charged(b, events) <= CapacityFor(b.rate) + EarnedIn(b, to - from)
  {
    EarnedAtConstantRate(b, from, events, to);
    WindowBound(b, from, events, to, Earned(b, from, events, to));
  }

  /** The extra bucket is real: a limit set after an unlimited spell finds what the spell would have
      earned at the new rate, which is a full bucket exactly when that is at least the capacity. */
  lemma StaleRefillGrantsABucket(start: real, at: real, r: nat)
    requires r > 0 && start <= at
    ensures var b := Apply(New(None, start), Limit(at, Some(r)));
            && b.tokens == 0.0
            && Potential(b, at) == Min((at - start) * r as real, CapacityFor(Some(r)))
            && (Potential(b, at) == CapacityFor(Some(r)) <==> (at - start) * r as real >= CapacityFor(Some(r)))
  {
    WorthNonNegative(at - start, r as real);
  }

  /** A new limiter works at the rate it was given, zero and none meaning unlimited, and grants at once
      what two seconds of it are worth, or a quantum if that is more, and nothing beyond. */
  lemma NewLimiterIsFull(bps: Option<nat>, now: real, need: nat)
    ensures var b := New(bps, now);
            && (b.rate.None? <==> bps.None? || bps.value == 0)
            && (b.rate.Some? ==> b.rate == bps)
            && (Granted(b, now, need as real) <==>
                  b.rate.None? || need <= 2 * bps.value || need <= 65536)
            && (b.rate.None? ==> Apply(b, Take(0, now, need)) == b)
  {
  }

  /** A change of the limit takes effect with the next take, and what was saved up is cut to the new capacity. */
  lemma LimitTakesEffect(b: Bucket, now: real, bps: Option<nat>, need: nat)
    requires Valid(b)
    ensures var c := Apply(b, Limit(now, bps));
            && Valid(c)
            && (c.rate.None? <==> bps.None? || bps.value == 0) && (c.rate.Some? ==> c.rate == bps)
            && c.lastRefill == (if b.rate.None? || now <= b.lastRefill then b.lastRefill else now)
            && c.tokens <= Potential(b, now) && (c.tokens == Potential(b, now) || c.tokens == c.capacity)
  {
    RefillKeepsValid(b, now);
  }

  // ----- Many acquirers

  /** What the acquirer `owner` is still owed after a run that began with `left`. */
  function Left(b: Bucket, events: seq<Event>, owner: nat, left: nat): nat
    decreases |events|
  {
    if events == [] then left else Left(Apply(b, events[0]), events[1..], owner, LeftAfter(b, events[0], owner, left))
  }

  function LeftAfter(b: Bucket, e: Event, owner: nat, left: nat): nat {
    if e.Take? && e.owner == owner && e.need <= left && Granted(b, e.at, e.need as real) then left - e.need else left
  }

  /** The acquirer's loop: it asks for what it is still owed, a quantum at most, and stops when that is nothing. */
  predicate Acquiring(b: Bucket, events: seq<Event>, owner: nat, left: nat)
    decreases |events|
  {
    events == [] ||
    ((events[0].Take? && events[0].owner == owner ==>
        left > 0 && events[0].need == if left < MAX_ACQUIRE_QUANTUM then left else MAX_ACQUIRE_QUANTUM)
     && Acquiring(Apply(b, events[0]), events[1..], owner, LeftAfter(b, events[0], owner, left)))
  }

  /** Bytes that these acquirers together are granted under a limit. */
  function ChargedTo(b: Bucket, events: seq<Event>, owners: set<nat>): real
    decreases |events|
  {
    if events == [] then 0.0
    else
      (if events[0].Take? && events[0].owner in owners then ChargeOf(b, events[0]) else 0.0)
      + ChargedTo(Apply(b, events[0]), events[1..], owners)
  }

  predicate Limited(b: Bucket, events: seq<Event>) {
    b.rate.Some? && forall i :: 0 <= i < |events| && events[i].Limit? ==> NormalizeRate(events[i].bps).Some?
  }

  /** However others take and limits change in between, an acquirer of `n` bytes is charged exactly what
      it has been granted so far, so exactly `n` once its loop is done. */
  lemma {:induction false} AcquirerIsChargedExactly(b: Bucket, events: seq<Event>, owner: nat, n: nat)
    requires Acquiring(b, events, owner, n) && Limited(b, events)
    ensures Left(b, events, owner, n) <= n
    ensures ChargedTo(b, events, {owner}) == (n - Left(b, events, owner, n)) as real
    decreases |events|
  {
    if events != [] {
      AcquirerIsChargedExactly(Apply(b, events[0]), events[1..], owner, LeftAfter(b, events[0], owner, n));
    }
  }

  /** The charges of different acquirers add up, to all charges of the run. */
  lemma {:induction false} ChargesAddUp(b: Bucket, events: seq<Event>, x: set<nat>, y: set<nat>)
    requires x !! y
    ensures ChargedTo(b, events, x + y) == ChargedTo(b, events, x) + ChargedTo(b, events, y)
    ensures (forall i :: 0 <= i < |events| && events[i].Take? ==> events[i].owner in x) ==>
              ChargedTo(b, events, x) == Charged(b, events)
    decreases |events|
  {
    if events != [] {
      ChargesAddUp(Apply(b, events[0]), events[1..], x, y);
    }
  }

  // ----- The limiter itself

  /** Rounds an uncontended taker still needs, counted in twentieths of a second at rate one. */
  ghost function RoundsLeft(b: Bucket, now: real, need: real): nat
    requires b.rate.Some? ==> Potential(b, now) <= b.capacity
  {
    if Granted(b, now, need) then 0 else 1 + ((need - Potential(b, now)) * 20.0).Floor
  }

  /** A sleep of the computed wait, cut to the control poll or not, earns the
      deficit or at least a twentieth of a byte. */
  lemma SleepEarns(deficit: real, r: real, slept: real)
    requires r >= 1.0 && deficit > 0.0
    requires slept >= Min(CONTROL_POLL, Min(2.0, Max(0.001, deficit / r)))
    ensures Worth(slept, r) >= Min(deficit, CONTROL_POLL)
  {
    var w := deficit / r;
    if slept < w {
      AtLeastOne(slept, r);
    } else {
      WorthNonNegative(slept - w, r);
      WorthSplit(w, slept - w, r);
      assert w + (slept - w) == slept;
      assert Worth(w, r) == deficit;
    }
  }

  lemma AtLeastOne(d: real, r: real)
    requires d >= 0.0 && r >= 1.0
    ensures Worth(d, r) >= d
  {
    WorthNonNegative(d, r - 1.0);
    assert Worth(d, r) == Worth(d, r - 1.0) + d;
  }

  lemma WaitMakesProgress(b: Bucket, now: real, need: real, later: real)
    requires Valid(b) && b.rate.Some? && b.lastRefill <= now && !Granted(b, now, need)
    requires need <= MAX_ACQUIRE_QUANTUM as real
    requires later - now >= Min(CONTROL_POLL, WaitFor(Refill(b, now), need))
    ensures Valid(Refill(b, now)) && Valid(Refill(Refill(b, now), later))
    ensures RoundsLeft(Refill(b, now), later, need) < RoundsLeft(b, now, need)
  {
    RefillKeepsValid(b, now);
    var c := Refill(b, now);
    SleepFills(c, need, later);
    if Potential(c, later) < need {
      FewerRounds(need - c.tokens, need - Potential(c, later));
    }
  }

  lemma SleepFills(c: Bucket, need: real, later: real)
    requires Valid(c) && c.rate.Some? && c.tokens < need <= MAX_ACQUIRE_QUANTUM as real
    requires later - c.lastRefill >= Min(CONTROL_POLL, WaitFor(c, need))
    ensures Valid(Refill(c, later))
    ensures Potential(c, later) < need ==> need - Potential(c, later) <= need - c.tokens - CONTROL_POLL
  {
    RefillKeepsValid(c, later);
    SleepEarns(need - c.tokens, c.rate.value as real, later - c.lastRefill);
  }

  lemma FewerRounds(deficit: real, left: real)
    requires left <= deficit - CONTROL_POLL
    ensures (left * 20.0).Floor < (deficit * 20.0).Floor
  {
    assert left * 20.0 + 1.0 <= deficit * 20.0;
  }

  class Limiter {
    var rate: Option<nat>
    var tokens: real
    var capacity: real
    var lastRefill: real
    ghost var charged: real  // bytes granted under a limit so far

    ghost function View(): Bucket
      reads this
    { Bucket(rate, tokens, capacity, lastRefill) }

    constructor (bps: Option<nat>, now: real)
      ensures View() == New(bps, now) && Valid(View()) && charged == 0.0
    {
      rate := NormalizeRate(bps);
      tokens := CapacityFor(NormalizeRate(bps));
      capacity := CapacityFor(NormalizeRate(bps));
      lastRefill := now;
      charged := 0.0;
    }

    method RefillAt(now: real)
      modifies this`tokens, this`lastRefill
      ensures View() == Refill(old(View()), now)
    {
      if rate.None? {
        return;
      }
      var elapsed := now - lastRefill;
      if elapsed > 0.0 {
        tokens := Min(tokens + Worth(elapsed, rate.value as real), capacity);
        lastRefill := now;
      }
    }

    method ChangeLimit(now: real, bps: Option<nat>)
      modifies this
      ensures View() == SetLimit(old(View()), now, bps) && charged == old(charged)
    {
      RefillAt(now);
      rate := NormalizeRate(bps);
      capacity := CapacityFor(rate);
      if tokens > capacity {
        tokens := capacity;
      }
    }

    /** `None` when the bytes were granted, otherwise how long to sleep. */
    method TakeNow(now: real, need: nat) returns (wait: Option<real>)
      requires Valid(View())
      modifies this`tokens, this`lastRefill, this`charged
      ensures View() == TryTake(old(View()), now, need as real)
      ensures charged == old(charged) + Charge(old(View()), now, need)
      ensures wait.None? <==> Granted(old(View()), now, need as real)
      ensures wait.Some? ==> wait.value == WaitFor(View(), need as real)
    {
      if rate.None? {
        return None;
      }
      RefillAt(now);
      if tokens >= need as real {
        tokens := tokens - need as real;
        charged := charged + need as real;
        return None;
      }
      return Some(WaitFor(Bucket(rate, tokens, capacity, lastRefill), need as real));
    }

    /** The longest time that may pass from read `first` of the control flag to read `last`. */
    static function Naps(lag: nat -> real, first: nat, last: nat): real
      decreases last
    {
      if last <= first then 0.0 else Naps(lag, first, last - 1) + CONTROL_POLL + lag(last)
    }

    static lemma {:induction false} NapsJoin(lag: nat -> real, first: nat, mid: nat, last: nat)
      requires first <= mid <= last
      ensures Naps(lag, first, last) == Naps(lag, first, mid) + Naps(lag, mid, last)
      decreases last
    {
      if mid < last {
        NapsJoin(lag, first, mid, last - 1);
      }
    }

    /** One quantum, with nobody else at the bucket. The k-th read of the control
        flag yields `control(k)`; the k-th sleep lasts `lag(k)` longer than asked. */
    method AcquireQuantum(need: nat, interruptible: bool, control: nat -> bool, lag: nat -> real, start: real,
                          polls0: nat)
      returns (ok: bool, end: real, polls: nat)
      requires Valid(View()) && lastRefill <= start && need <= MAX_ACQUIRE_QUANTUM
      requires forall k :: lag(k) >= 0.0
      modifies this`tokens, this`lastRefill, this`charged
      ensures Valid(View()) && lastRefill <= end && start <= end && polls0 <= polls
      ensures charged == old(charged) + if ok && rate.Some? then need as real else 0.0
      ensures !ok ==> interruptible && exists k :: polls0 <= k < polls && control(k)
      ensures ok && interruptible ==> forall k :: polls0 <= k < polls ==> !control(k)
      // The flag is read before each try, never more than a nap apart.
      ensures if interruptible then polls0 < polls && end - start <= Naps(lag, polls0, polls) else polls == polls0
    {
      end, polls := start, polls0;
      while true
        invariant Valid(View()) && lastRefill <= end && start <= end && polls0 <= polls
        invariant charged == old(charged)
        invariant interruptible ==> forall k :: polls0 <= k < polls ==> !control(k)
        invariant if interruptible then end - start <= Naps(lag, polls0, polls) else polls == polls0
        decreases RoundsLeft(View(), end, need as real)
      {
        if interruptible {
          polls := polls + 1;
          if control(polls - 1) {
            return false, end, polls;
          }
        }
        ghost var before := View();
        PotentialGrowsByRate(before, end, end);
        var wait := TakeNow(end, need);
        if wait.None? {
          return true, end, polls;
        }
        var sleep := if interruptible then Min(CONTROL_POLL, wait.value) else wait.value;
        var later := end + sleep + lag(polls);
        WaitMakesProgress(before, end, need as real, later);
        end := later;
      }
    }

    /** `acquire`: quantum by quantum. Granted means exactly `n` bytes were
        charged; given up means the control flag was set and fewer were. */
    method Acquire(n: nat, interruptible: bool, control: nat -> bool, lag: nat -> real, start: real)
      returns (ok: bool, end: real, polls: nat)
      requires Valid(View()) && lastRefill <= start
      requires forall k :: lag(k) >= 0.0
      modifies this`tokens, this`lastRefill, this`charged
      ensures Valid(View()) && lastRefill <= end && start <= end
      ensures rate.Some? && ok ==> charged == old(charged) + n as real
      ensures rate.Some? && !ok ==> old(charged) <= charged < old(charged) + n as real
      ensures rate.None? ==> charged == old(charged)
      ensures !ok ==> interruptible && exists k :: 0 <= k < polls && control(k)
      ensures ok && interruptible ==> forall k :: 0 <= k < polls ==> !control(k)
      ensures interruptible && n > 0 ==> polls > 0 && end - start <= Naps(lag, 0, polls)
    {
      end, polls := start, 0;
      var remaining := n;
      while remaining > 0
        invariant 0 <= remaining <= n
        invariant Valid(View()) && lastRefill <= end && start <= end
        invariant charged == old(charged) + if rate.Some? then (n - remaining) as real else 0.0
        invariant interruptible ==> forall k :: 0 <= k < polls ==> !control(k)
        invariant interruptible ==> end - start <= Naps(lag, 0, polls) && (remaining < n ==> polls > 0)
      {
        if interruptible {
          polls := polls + 1;
          if control(polls - 1) {
            return false, end, polls;
          }
        }
        ghost var read := polls;
        assert interruptible ==> Naps(lag, 0, read) == Naps(lag, 0, read - 1) + CONTROL_POLL + lag(read);
        assert lag(read) >= 0.0;
        var want := if remaining < MAX_ACQUIRE_QUANTUM then remaining else MAX_ACQUIRE_QUANTUM;
        ok, end, polls := AcquireQuantum(want, interruptible, control, lag, end, polls);
        NapsJoin(lag, 0, read, polls);
        if !ok {
          return;
        }
        remaining := remaining - want;
      }
      ok := true;
    }
  }
}
