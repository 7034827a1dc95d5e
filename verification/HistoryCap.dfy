/** The bound on completed jobs kept in the stored queue. */
module HistoryCap {
  import opened Wrappers

  datatype JobState = Queued | Starting | Downloading | Paused | Completed | Failed | Canceled

  datatype Job = Job(id: string, state: JobState, createdAt: nat, completedAt: Option<nat>)

  /** When a job counts as finished: its completion time, or its creation time when that is missing. */
  function Key(job: Job): nat { if job.completedAt.Some? then job.completedAt.value else job.createdAt }

  // ----- The program: sort the completed indexes by key, drop the first ones

  function CompletedFrom(jobs: seq<Job>, i: nat): seq<nat>
    requires i <= |jobs|
    decreases |jobs| - i
  {
    if i == |jobs| then []
    else (if jobs[i].state == Completed then [i] else []) + CompletedFrom(jobs, i + 1)
  }

  predicate Indexes(jobs: seq<Job>, s: seq<nat>) { forall k :: 0 <= k < |s| ==> s[k] < |jobs| }

  /** Insertion before the first key that is not smaller: the stable choice for an index that came first. */
  function Insert(jobs: seq<Job>, x: nat, s: seq<nat>): (r: seq<nat>)
    requires x < |jobs| && Indexes(jobs, s)
    ensures Indexes(jobs, r)
  {
    if s == [] || Key(jobs[x]) <= Key(jobs[s[0]]) then [x] + s else [s[0]] + Insert(jobs, x, s[1..])
  }

  function SortByKey(jobs: seq<Job>, s: seq<nat>): (r: seq<nat>)
    requires Indexes(jobs, s)
    ensures Indexes(jobs, r)
  {
    if s == [] then [] else Insert(jobs, s[0], SortByKey(jobs, s[1..]))
  }

  function KeepFrom(jobs: seq<Job>, dropped: set<nat>, i: nat): seq<Job>
    requires i <= |jobs|
    decreases |jobs| - i
  {
    if i == |jobs| then [] else (if i in dropped then [] else [jobs[i]]) + KeepFrom(jobs, dropped, i + 1)
  }

  function Dropped(jobs: seq<Job>, cap: nat): set<nat> {
    var completed := CompletedFrom(jobs, 0);
    CompletedAre(jobs, 0);
    if |completed| <= cap then {}
    else
      SortKeeps(jobs, completed);
      var oldest := SortByKey(jobs, completed)[..|completed| - cap];
      set k | 0 <= k < |oldest| :: oldest[k]
  }

  function Cap(jobs: seq<Job>, cap: nat): seq<Job> { KeepFrom(jobs, Dropped(jobs, cap), 0) }

  // ----- Sorting

  /** Older first; among equal keys, earlier in the queue first. */
  predicate Before(jobs: seq<Job>, a: nat, b: nat)
    requires a < |jobs| && b < |jobs|
  {
    Key(jobs[a]) < Key(jobs[b]) || (Key(jobs[a]) == Key(jobs[b]) && a < b)
  }

  predicate Sorted(jobs: seq<Job>, s: seq<nat>)
    requires Indexes(jobs, s)
  {
    forall a, b :: 0 <= a < b < |s| ==> Before(jobs, s[a], s[b])
  }

  predicate Ascending(s: seq<nat>) { forall a, b :: 0 <= a < b < |s| ==> s[a] < s[b] }

  lemma {:induction false} InsertKeeps(jobs: seq<Job>, x: nat, s: seq<nat>)
    requires x < |jobs| && Indexes(jobs, s)
    ensures multiset(Insert(jobs, x, s)) == multiset{x} + multiset(s)
  {
    if !(s == [] || Key(jobs[x]) <= Key(jobs[s[0]])) {
      InsertKeeps(jobs, x, s[1..]);
      assert s == [s[0]] + s[1..];
    }
  }

  lemma {:induction false} SortKeeps(jobs: seq<Job>, s: seq<nat>)
    requires Indexes(jobs, s)
    ensures multiset(SortByKey(jobs, s)) == multiset(s) && |SortByKey(jobs, s)| == |s|
  {
    if s != [] {
      SortKeeps(jobs, s[1..]);
      InsertKeeps(jobs, s[0], SortByKey(jobs, s[1..]));
      assert s == [s[0]] + s[1..];
      assert |multiset(SortByKey(jobs, s))| == |SortByKey(jobs, s)| && |multiset(s)| == |s|;
    }
  }

  lemma {:induction false} InsertSorts(jobs: seq<Job>, x: nat, s: seq<nat>)
    requires x < |jobs| && Indexes(jobs, s) && Sorted(jobs, s)
    requires forall k :: 0 <= k < |s| ==> x < s[k]
    ensures Sorted(jobs, Insert(jobs, x, s))
  {
    if s != [] && Key(jobs[s[0]]) < Key(jobs[x]) {
      InsertSorts(jobs, x, s[1..]);
      var rest := Insert(jobs, x, s[1..]);
      InsertKeeps(jobs, x, s[1..]);
      forall k | 0 <= k < |rest| ensures Before(jobs, s[0], rest[k]) {
        assert rest[k] in multiset(rest);
        assert rest[k] == x || rest[k] in s[1..];
      }
    }
  }

  lemma {:induction false} SortSorts(jobs: seq<Job>, s: seq<nat>)
    requires Indexes(jobs, s) && Ascending(s)
    ensures Sorted(jobs, SortByKey(jobs, s))
  {
    if s != [] {
      var rest := SortByKey(jobs, s[1..]);
      SortSorts(jobs, s[1..]);
      SortKeeps(jobs, s[1..]);
      forall k | 0 <= k < |rest| ensures s[0] < rest[k] {
        assert rest[k] in multiset(rest);
        var j :| 0 <= j < |s[1..]| && s[1..][j] == rest[k];
      }
      InsertSorts(jobs, s[0], rest);
    }
  }

  lemma {:induction false} CompletedAre(jobs: seq<Job>, i: nat)
    requires i <= |jobs|
    ensures var c := CompletedFrom(jobs, i);
            && Indexes(jobs, c) && Ascending(c)
            && (forall k :: 0 <= k < |c| ==> i <= c[k] && jobs[c[k]].state == Completed)
    decreases |jobs| - i
  {
    if i < |jobs| {
      CompletedAre(jobs, i + 1);
      var c, rest := CompletedFrom(jobs, i), CompletedFrom(jobs, i + 1);
      if jobs[i].state == Completed {
        assert c == [i] + rest;
      } else {
        assert c == rest;
      }
    }
  }

  lemma {:induction false} CompletedIsListed(jobs: seq<Job>, i: nat, j: nat)
    requires i <= j < |jobs| && jobs[j].state == Completed
    ensures j in CompletedFrom(jobs, i)
    decreases j - i
  {
    if i < j {
      CompletedIsListed(jobs, i + 1, j);
    }
  }

  // ----- What is dropped and what is kept

  predicate IsCompleted(jobs: seq<Job>, i: nat) { i < |jobs| && jobs[i].state == Completed }

  function Count(jobs: seq<Job>): nat {
    if jobs == [] then 0 else (if jobs[0].state == Completed then 1 else 0) + Count(jobs[1..])
  }

  lemma {:induction false} CountIsIndexes(jobs: seq<Job>, i: nat)
    requires i <= |jobs|
    ensures Count(jobs[i..]) == |CompletedFrom(jobs, i)|
    decreases |jobs| - i
  {
    if i < |jobs| {
      CountIsIndexes(jobs, i + 1);
      assert jobs[i..][1..] == jobs[i + 1..];
    }
  }

  lemma {:induction false} SetOfDistinct(s: seq<nat>)
    requires forall a, b :: 0 <= a < b < |s| ==> s[a] != s[b]
    ensures |set k | 0 <= k < |s| :: s[k]| == |s|
  {
    if s != [] {
      var n := |s| - 1;
      var front := s[..n];
      SetOfDistinct(front);
      var small := set k | 0 <= k < |front| :: front[k];
      assert (set k | 0 <= k < |s| :: s[k]) == small + {s[n]} by {
        forall x | x in small + {s[n]} ensures x in (set k | 0 <= k < |s| :: s[k]) {
          if x in small {
            var k :| 0 <= k < |front| && front[k] == x;
            assert s[k] == x;
          }
        }
        forall x | x in (set k | 0 <= k < |s| :: s[k]) ensures x in small + {s[n]} {
          var k :| 0 <= k < |s| && s[k] == x;
          if k < n {
            assert front[k] == x;
          }
        }
      }
      assert s[n] !in small;
    }
  }

  lemma SortedCompleted(jobs: seq<Job>) returns (sorted: seq<nat>)
    ensures Indexes(jobs, CompletedFrom(jobs, 0)) && sorted == SortByKey(jobs, CompletedFrom(jobs, 0))
    ensures Sorted(jobs, sorted) && |sorted| == |CompletedFrom(jobs, 0)| == Count(jobs)
    ensures forall k :: IsCompleted(jobs, k) <==> k in sorted
  {
    var completed := CompletedFrom(jobs, 0);
    CompletedAre(jobs, 0);
    CountIsIndexes(jobs, 0);
    assert jobs[0..] == jobs;
    SortKeeps(jobs, completed);
    SortSorts(jobs, completed);
    sorted := SortByKey(jobs, completed);
    forall k ensures IsCompleted(jobs, k) <==> k in sorted {
      assert k in sorted <==> k in multiset(sorted);
      assert k in completed <==> k in multiset(completed);
      if IsCompleted(jobs, k) {
        CompletedIsListed(jobs, 0, k);
      }
    }
  }

  /** The indexes that are dropped, when some are: the front of a sorted permutation of the completed ones. */
  lemma DroppedIsTheFront(jobs: seq<Job>, cap: nat) returns (sorted: seq<nat>)
    requires Count(jobs) > cap
    ensures Indexes(jobs, sorted) && Sorted(jobs, sorted) && |sorted| == Count(jobs)
    ensures forall k :: IsCompleted(jobs, k) <==> k in sorted
    ensures forall k :: k in Dropped(jobs, cap) ==> k in sorted[..Count(jobs) - cap]
    ensures forall a :: 0 <= a < Count(jobs) - cap ==> sorted[a] in Dropped(jobs, cap)
    ensures |Dropped(jobs, cap)| == Count(jobs) - cap
  {
    sorted := SortedCompleted(jobs);
    var oldest := sorted[..Count(jobs) - cap];
    SetOfDistinct(oldest);
    assert Dropped(jobs, cap) == set k | 0 <= k < |oldest| :: oldest[k];
    assert forall a :: 0 <= a < |oldest| ==> oldest[a] == sorted[a] && oldest[a] in Dropped(jobs, cap);
  }

  /** Exactly the oldest completed jobs over the cap are dropped: each of them
      comes before every completed job that stays, ties in queue order. */
  lemma DroppedAreTheOldest(jobs: seq<Job>, cap: nat)
    ensures var d := Dropped(jobs, cap);
            && |d| == (if Count(jobs) > cap then Count(jobs) - cap else 0)
            && (forall i :: i in d ==> IsCompleted(jobs, i))
            && (forall i, k :: i in d && IsCompleted(jobs, k) && k !in d ==> Before(jobs, i, k))
  {
    if Count(jobs) > cap {
      var sorted := DroppedIsTheFront(jobs, cap);
      var n := Count(jobs) - cap;
      forall i, k | i in Dropped(jobs, cap) && IsCompleted(jobs, k) && k !in Dropped(jobs, cap)
        ensures Before(jobs, i, k)
      {
        var a :| 0 <= a < n && sorted[..n][a] == i;
        var b :| 0 <= b < |sorted| && sorted[b] == k;
      }
    } else {
      CompletedAre(jobs, 0);
      CountIsIndexes(jobs, 0);
      assert jobs[0..] == jobs;
    }
  }

  function Filter(jobs: seq<Job>, completed: bool): seq<Job> {
    if jobs == [] then []
    else (if (jobs[0].state == Completed) == completed then [jobs[0]] else []) + Filter(jobs[1..], completed)
  }

  lemma {:induction false} FilterConcat(a: seq<Job>, b: seq<Job>, completed: bool)
    ensures Filter(a + b, completed) == Filter(a, completed) + Filter(b, completed)
  {
    if a == [] {
      assert a + b == b;
    } else {
      assert (a + b)[1..] == a[1..] + b;
      FilterConcat(a[1..], b, completed);
    }
  }

  lemma {:induction false} KeepsOthers(jobs: seq<Job>, dropped: set<nat>, i: nat)
    requires i <= |jobs| && forall d :: d in dropped ==> IsCompleted(jobs, d)
    ensures Filter(KeepFrom(jobs, dropped, i), false) == Filter(jobs[i..], false)
    decreases |jobs| - i
  {
    if i < |jobs| {
      KeepsOthers(jobs, dropped, i + 1);
      assert jobs[i..] == [jobs[i]] + jobs[i + 1..];
      var kept := if i in dropped then [] else [jobs[i]];
      FilterConcat(kept, KeepFrom(jobs, dropped, i + 1), false);
      assert [jobs[i]][1..] == [];
    }
  }

  lemma {:induction false} CountConcat(a: seq<Job>, b: seq<Job>)
    ensures Count(a + b) == Count(a) + Count(b)
  {
    if a == [] {
      assert a + b == b;
    } else {
      assert (a + b)[1..] == a[1..] + b;
      CountConcat(a[1..], b);
    }
  }

  lemma {:induction false} CountKept(jobs: seq<Job>, dropped: set<nat>, i: nat)
    requires i <= |jobs| && forall d :: d in dropped ==> IsCompleted(jobs, d)
    ensures Count(KeepFrom(jobs, dropped, i)) + |set d | d in dropped && d >= i| == Count(jobs[i..])
    decreases |jobs| - i
  {
    if i == |jobs| {
      assert (set d | d in dropped && d >= i) == {};
    } else {
      CountKept(jobs, dropped, i + 1);
      assert jobs[i..] == [jobs[i]] + jobs[i + 1..];
      CountConcat([jobs[i]], jobs[i + 1..]);
      var later := set d | d in dropped && d >= i + 1;
      if i in dropped {
        assert (set d | d in dropped && d >= i) == later + {i};
        assert KeepFrom(jobs, dropped, i) == KeepFrom(jobs, dropped, i + 1);
      } else {
        assert (set d | d in dropped && d >= i) == later;
        CountConcat([jobs[i]], KeepFrom(jobs, dropped, i + 1));
      }
      assert [jobs[i]][1..] == [];
    }
  }

  ghost predicate IsSubsequence(a: seq<Job>, b: seq<Job>)
    decreases |b|
  {
    a == [] || (b != [] && ((a[0] == b[0] && IsSubsequence(a[1..], b[1..])) || IsSubsequence(a, b[1..])))
  }

  lemma {:induction false} KeptInOrder(jobs: seq<Job>, dropped: set<nat>, i: nat)
    requires i <= |jobs|
    ensures IsSubsequence(KeepFrom(jobs, dropped, i), jobs[i..])
    decreases |jobs| - i
  {
    if i < |jobs| {
      KeptInOrder(jobs, dropped, i + 1);
      assert jobs[i..][1..] == jobs[i + 1..];
      if i in dropped {
        assert KeepFrom(jobs, dropped, i) == KeepFrom(jobs, dropped, i + 1);
      } else {
        assert ([jobs[i]] + KeepFrom(jobs, dropped, i + 1))[1..] == KeepFrom(jobs, dropped, i + 1);
      }
    }
  }

  /** The cap keeps the queue's order and every job that is not completed, and
      exactly as many completed jobs as it may. */
  lemma CapKeeps(jobs: seq<Job>, cap: nat)
    ensures var r := Cap(jobs, cap);
            && IsSubsequence(r, jobs)
            && Filter(r, false) == Filter(jobs, false)
            && Count(r) == (if Count(jobs) <= cap then Count(jobs) else cap)
  {
    var d := Dropped(jobs, cap);
    DroppedAreTheOldest(jobs, cap);
    assert jobs[0..] == jobs;
    KeptInOrder(jobs, d, 0);
    KeepsOthers(jobs, d, 0);
    CountKept(jobs, d, 0);
    assert (set i | i in d && i >= 0) == d;
  }

  lemma {:induction false} KeepAll(jobs: seq<Job>, i: nat)
    requires i <= |jobs|
    ensures KeepFrom(jobs, {}, i) == jobs[i..]
    decreases |jobs| - i
  {
    if i < |jobs| {
      KeepAll(jobs, i + 1);
    }
  }

  /** A queue within the cap is left as it is, so capping twice changes nothing more. */
  lemma CapTwice(jobs: seq<Job>, cap: nat)
    ensures Count(jobs) <= cap ==> Cap(jobs, cap) == jobs
    ensures Cap(Cap(jobs, cap), cap) == Cap(jobs, cap)
  {
    CapWithin(jobs, cap);
    CapKeeps(jobs, cap);
    CapWithin(Cap(jobs, cap), cap);
  }

  lemma CapWithin(jobs: seq<Job>, cap: nat)
    ensures Count(jobs) <= cap ==> Cap(jobs, cap) == jobs
  {
    CompletedAre(jobs, 0);
    CountIsIndexes(jobs, 0);
    assert jobs[0..] == jobs;
    if Count(jobs) <= cap {
      KeepAll(jobs, 0);
    }
  }

  // ----- What is left out

  /** `r` lists the jobs at these indexes, in the queue's order. */
  ghost predicate Picks(jobs: seq<Job>, r: seq<Job>, kept: seq<nat>) {
    && Ascending(kept) && |r| == |kept|
    && forall k :: 0 <= k < |kept| ==> kept[k] < |jobs| && r[k] == jobs[kept[k]]
  }

  lemma PicksOneMore(jobs: seq<Job>, r: seq<Job>, kept: seq<nat>, i: nat)
    requires i < |jobs| && Picks(jobs, r, kept) && forall k :: 0 <= k < |kept| ==> i < kept[k]
    ensures Picks(jobs, [jobs[i]] + r, [i] + kept)
  {
  }

  /** What is kept from index `i` on is picked at these indexes. */
  ghost predicate PicksFrom(jobs: seq<Job>, dropped: set<nat>, i: nat, r: seq<Job>, kept: seq<nat>) {
    Picks(jobs, r, kept) && forall k :: k in kept <==> i <= k < |jobs| && k !in dropped
  }

  lemma PicksOn(jobs: seq<Job>, dropped: set<nat>, i: nat, r: seq<Job>, kept: seq<nat>)
    requires i < |jobs| && i !in dropped && PicksFrom(jobs, dropped, i + 1, r, kept)
    ensures PicksFrom(jobs, dropped, i, [jobs[i]] + r, [i] + kept)
  {
    forall k | 0 <= k < |kept| ensures i < kept[k] {
      assert kept[k] in kept;
    }
    PicksOneMore(jobs, r, kept, i);
  }

  lemma {:induction false} KeepFromPicks(jobs: seq<Job>, dropped: set<nat>, i: nat) returns (kept: seq<nat>)
    requires i <= |jobs|
    ensures PicksFrom(jobs, dropped, i, KeepFrom(jobs, dropped, i), kept)
    decreases |jobs| - i
  {
    if i == |jobs| {
      kept := [];
    } else {
      kept := KeepFromPicks(jobs, dropped, i + 1);
      var rest := KeepFrom(jobs, dropped, i + 1);
      if i in dropped {
        assert KeepFrom(jobs, dropped, i) == rest;
      } else {
        PicksOn(jobs, dropped, i, rest, kept);
        kept := [i] + kept;
      }
    }
  }

  /** A job finished no later than another: by completion time, by creation time where that is missing, and
      by its place in the queue where they are equal. */
  ghost predicate NoLater(jobs: seq<Job>, i: nat, k: nat)
    requires i < |jobs| && k < |jobs|
  {
    var a := match jobs[i].completedAt case Some(t) => t case None => jobs[i].createdAt;
    var b := match jobs[k].completedAt case Some(t) => t case None => jobs[k].createdAt;
    a < b || (a == b && i < k)
  }

  /** Of the capped queue alone: it lists the jobs at some indexes, and every index left out is that of a
      completed job that comes before each completed job listed. */
  lemma OldestAreLeftOut(jobs: seq<Job>, cap: nat) returns (kept: seq<nat>)
    ensures Picks(jobs, Cap(jobs, cap), kept)
    ensures forall i :: 0 <= i < |jobs| && i !in kept ==>
              && IsCompleted(jobs, i)
              && forall k :: k in kept && IsCompleted(jobs, k) ==> NoLater(jobs, i, k)
  {
    DroppedAreTheOldest(jobs, cap);
    kept := KeepFromPicks(jobs, Dropped(jobs, cap), 0);
  }
}
