/** The stored download queue: the temp-file commit with its crash points, and
    the latch that keeps a failed load from being overwritten. JSON is abstract:
    a file's content is either a queue or something that does not parse. */
module Persistence {
  import opened HistoryCap
  import opened Wrappers

  datatype Content = Queue(jobs: seq<Job>) | Unparsable(junk: nat)

  // ----- The disk

  /** File data. Until it is synced a crash may leave anything in its place. */
  datatype Inode = Inode(content: Content, synced: bool)

  /** The two names in the data directory. */
  datatype Dir = Dir(target: Option<nat>, temp: Option<nat>)

  /** `older` are directory states a crash may fall back to: no directory sync has succeeded since. */
  datatype Disk = Disk(inodes: seq<Inode>, dir: Dir, older: seq<Dir>)

  function ChangeDir(d: Disk, dir: Dir): Disk { d.(dir := dir, older := d.older + [d.dir]) }

  function SetInode(d: Disk, i: nat, inode: Inode): Disk {
    if i < |d.inodes| then d.(inodes := d.inodes[i := inode]) else d
  }

  /** Create or truncate the temp file. */
  function OpenTemp(d: Disk): Disk {
    match d.dir.temp
    case Some(i) => SetInode(d, i, Inode(Unparsable(0), false))
    case None =>
      ChangeDir(d.(inodes := d.inodes + [Inode(Unparsable(0), false)]), d.dir.(temp := Some(|d.inodes|)))
  }

  function WriteTemp(d: Disk, content: Content): Disk {
    match d.dir.temp case Some(i) => SetInode(d, i, Inode(content, false)) case None => d
  }

  function SyncTemp(d: Disk): Disk {
    match d.dir.temp
    case Some(i) => if i < |d.inodes| then SetInode(d, i, d.inodes[i].(synced := true)) else d
    case None => d
  }

  function RenameTemp(d: Disk): Disk { ChangeDir(d, Dir(d.dir.temp, None)) }

  function RemoveTemp(d: Disk): Disk { ChangeDir(d, d.dir.(temp := None)) }

  function SyncDir(d: Disk): Disk { d.(older := []) }

  function ContentAt(d: Disk, dir: Dir): Option<Content> {
    if dir.target.Some? && dir.target.value < |d.inodes| then Some(d.inodes[dir.target.value].content) else None
  }

  function Read(d: Disk): Option<Content> { ContentAt(d, d.dir) }

  ghost predicate DirMayYield(d: Disk, dir: Dir, result: Option<Content>) {
    if dir.target.Some? && dir.target.value < |d.inodes| && !d.inodes[dir.target.value].synced
    then result.Some?
    else result == ContentAt(d, dir)
  }

  /** What a reader may find in the target file after a crash now. */
  ghost predicate MayReadAfterCrash(d: Disk, result: Option<Content>) {
    DirMayYield(d, d.dir, result) || exists k :: 0 <= k < |d.older| && DirMayYield(d, d.older[k], result)
  }

  // ----- atomic_write

  /** Which system calls succeed. */
  datatype Io = Io(open: bool, write: bool, sync: bool, dirBefore: bool, rename: bool, remove: bool, dirAfter: bool)

  /** Every disk state the commit passes through, the first and the last included. */
  function Commit(d: Disk, content: Content, io: Io): (states: seq<Disk>)
    ensures states != [] && states[0] == d
  {
    if !io.open then [d]
    else
      var created := OpenTemp(d);
      if !io.write then [d, created, WriteTemp(created, Unparsable(1))]
      else
        var written := WriteTemp(created, content);
        if !io.sync then [d, created, written]
        else
          var synced := SyncTemp(written);
          var flushed := if io.dirBefore then SyncDir(synced) else synced;
          if !io.rename then
            [d, created, written, synced, flushed] + (if io.remove then [RemoveTemp(flushed)] else [])
          else
            var renamed := RenameTemp(flushed);
            [d, created, written, synced, flushed, renamed, if io.dirAfter then SyncDir(renamed) else renamed]
  }

  predicate Committed(io: Io) { io.open && io.write && io.sync && io.rename }

  function LastState(states: seq<Disk>): Disk
    requires states != []
  { states[|states| - 1] }

  /** Target files are synced, and no temp name shares data with its own target, nor the latest with any. */
  ghost predicate DirSound(d: Disk, dir: Dir) {
    && (dir.target.Some? ==> dir.target.value < |d.inodes| && d.inodes[dir.target.value].synced)
    && (dir.temp.Some? ==> dir.temp.value < |d.inodes| && dir.temp != dir.target)
    && (dir.target.Some? ==> dir.target != d.dir.temp)
  }

  ghost predicate Sound(d: Disk) {
    DirSound(d, d.dir) && forall k :: 0 <= k < |d.older| ==> DirSound(d, d.older[k])
  }

  /** The contents a sound disk may show after a crash. */
  ghost function Versions(d: Disk): set<Option<Content>> {
    {Read(d)} + (set k | 0 <= k < |d.older| :: ContentAt(d, d.older[k]))
  }

  lemma CrashShowsAVersion(d: Disk)
    requires Sound(d)
    ensures forall r :: MayReadAfterCrash(d, r) <==> r in Versions(d)
  {
    forall r ensures MayReadAfterCrash(d, r) <==> r in Versions(d) {
      forall k | 0 <= k < |d.older| ensures DirMayYield(d, d.older[k], r) <==> r == ContentAt(d, d.older[k]) {
        assert DirSound(d, d.older[k]);
      }
    }
  }

  /** Changing the data behind the temp name, or data nobody names yet, changes no version. */
  lemma TempDataKeepsVersions(d: Disk, t: Disk)
    requires Sound(d) && t.dir == d.dir && t.older == d.older && |d.inodes| <= |t.inodes|
    requires forall i :: 0 <= i < |d.inodes| && d.dir.temp != Some(i) ==> t.inodes[i] == d.inodes[i]
    ensures Sound(t) && Versions(t) == Versions(d)
  {
    forall k | 0 <= k < |d.older|
      ensures DirSound(t, t.older[k]) && ContentAt(t, t.older[k]) == ContentAt(d, d.older[k])
    {
      assert DirSound(d, d.older[k]);
    }
    assert Read(t) == Read(d);
  }

  /** A new directory state adds its own target to the versions; the others stay. */
  lemma NewDirAddsAVersion(d: Disk, dir: Dir)
    requires Sound(d)
    requires dir.temp.None? || (dir.temp.value < |d.inodes| && (dir.temp == d.dir.temp || NewData(d, dir.temp)))
    requires dir.target == d.dir.target || (dir.target == d.dir.temp && dir.temp.None?)
    requires dir.target.Some? ==> dir.target.value < |d.inodes| && d.inodes[dir.target.value].synced
    ensures Sound(ChangeDir(d, dir)) && Versions(ChangeDir(d, dir)) == Versions(d) + {ContentAt(d, dir)}
  {
    var t := ChangeDir(d, dir);
    forall k | 0 <= k < |t.older| ensures DirSound(t, t.older[k]) {
      if k < |d.older| {
        assert DirSound(d, d.older[k]);
        assert t.older[k] == d.older[k];
      }
    }
    forall r ensures r in Versions(t) <==> r in Versions(d) + {ContentAt(d, dir)} {
      if r in Versions(d) {
        if r == Read(d) {
          assert t.older[|d.older|] == d.dir;
        } else {
          var k :| 0 <= k < |d.older| && r == ContentAt(d, d.older[k]);
          assert t.older[k] == d.older[k];
        }
      }
    }
  }

  /** Data that no directory state on disk names. */
  ghost predicate NewData(d: Disk, i: Option<nat>) {
    i != d.dir.target && forall k :: 0 <= k < |d.older| ==> d.older[k].target != i
  }

  ghost predicate VersionsWithin(d: Disk, bound: set<Option<Content>>) { Sound(d) && Versions(d) <= bound }

  lemma OpenKeeps(d: Disk)
    requires Sound(d)
    ensures Sound(OpenTemp(d)) && Versions(OpenTemp(d)) == Versions(d) && OpenTemp(d).dir.temp.Some?
    ensures OpenTemp(d).dir.target == d.dir.target && Read(OpenTemp(d)) == Read(d)
  {
    if d.dir.temp.Some? {
      TempDataKeepsVersions(d, OpenTemp(d));
    } else {
      var more := d.(inodes := d.inodes + [Inode(Unparsable(0), false)]);
      TempDataKeepsVersions(d, more);
      var dir := d.dir.(temp := Some(|d.inodes|));
      assert NewData(more, dir.temp) by {
        forall k | 0 <= k < |d.older| ensures d.older[k].target != dir.temp {
          assert DirSound(d, d.older[k]);
        }
      }
      NewDirAddsAVersion(more, dir);
    }
  }

  lemma SyncDirKeeps(d: Disk)
    requires Sound(d)
    ensures Sound(SyncDir(d)) && Versions(SyncDir(d)) == {Read(d)} && Read(d) in Versions(d)
  {
  }

  /** The temp file filled and synced, with or without the first directory sync. */
  lemma PrepareKeeps(d: Disk, content: Content, dirBefore: bool)
    requires Sound(d)
    ensures var written := WriteTemp(OpenTemp(d), content);
            var synced := SyncTemp(written);
            var flushed := if dirBefore then SyncDir(synced) else synced;
            && VersionsWithin(written, Versions(d)) && VersionsWithin(synced, Versions(d))
            && VersionsWithin(flushed, Versions(d))
            && Read(flushed) == Read(d) && flushed.dir.temp.Some?
            && flushed.inodes[flushed.dir.temp.value] == Inode(content, true)
  {
    OpenKeeps(d);
    var created := OpenTemp(d);
    var written := WriteTemp(created, content);
    TempDataKeepsVersions(created, written);
    TempDataKeepsVersions(written, SyncTemp(written));
    SyncDirKeeps(SyncTemp(written));
  }

  /** The rename makes the new content the target and keeps every older version possible until the
      directory is synced. */
  lemma RenameAdds(d: Disk, content: Content)
    requires Sound(d) && d.dir.temp.Some? && d.inodes[d.dir.temp.value] == Inode(content, true)
    ensures VersionsWithin(RenameTemp(d), Versions(d) + {Some(content)}) && Read(RenameTemp(d)) == Some(content)
    ensures VersionsWithin(RemoveTemp(d), Versions(d)) && Read(RemoveTemp(d)) == Read(d)
    ensures Versions(SyncDir(RenameTemp(d))) == {Some(content)} && Sound(SyncDir(RenameTemp(d)))
  {
    NewDirAddsAVersion(d, Dir(d.dir.temp, None));
    NewDirAddsAVersion(d, d.dir.(temp := None));
    SyncDirKeeps(RenameTemp(d));
  }

  /** Once the first directory sync has worked, nothing older than the commit can come back, whatever
      becomes of the second. */
  lemma FirstSyncNarrows(d: Disk, content: Content, io: Io)
    requires Sound(d) && Committed(io) && io.dirBefore
    ensures Versions(LastState(Commit(d, content, io))) <= {Read(d), Some(content)}
  {
    OpenKeeps(d);
    PrepareKeeps(d, content, true);
    var flushed := SyncDir(SyncTemp(WriteTemp(OpenTemp(d), content)));
    RenameAdds(flushed, content);
    SyncDirKeeps(SyncTemp(WriteTemp(OpenTemp(d), content)));
  }

  /** Once the temp file was synced, it is left behind exactly by a commit whose rename and removal both failed. */
  lemma TempIsGone(d: Disk, content: Content, io: Io)
    requires io.open && io.write && io.sync
    ensures LastState(Commit(d, content, io)).dir.temp.None? <==> io.rename || io.remove
  {
  }

  /** Why the file is synced before it is renamed: without that, a crash after the rename may leave any bytes
      in the target. */
  lemma UnsyncedRenameTears(d: Disk, content: Content, torn: Content)
    requires Sound(d)
    ensures MayReadAfterCrash(RenameTemp(WriteTemp(OpenTemp(d), content)), Some(torn))
  {
    var t := RenameTemp(WriteTemp(OpenTemp(d), content));
    assert DirMayYield(t, t.dir, Some(torn));
  }

  ghost predicate AllWithin(states: seq<Disk>, bound: set<Option<Content>>) {
    forall k :: 0 <= k < |states| ==> VersionsWithin(states[k], bound)
  }

  lemma FailedWrite(d: Disk, content: Content, io: Io)
    requires Sound(d) && !(io.open && io.write)
    ensures var states := Commit(d, content, io);
            AllWithin(states, Versions(d)) && Read(LastState(states)) == Read(d)
  {
    OpenKeeps(d);
    TempDataKeepsVersions(OpenTemp(d), WriteTemp(OpenTemp(d), Unparsable(1)));
    var after := WriteTemp(OpenTemp(d), Unparsable(1));
    assert VersionsWithin(d, Versions(d)) && VersionsWithin(OpenTemp(d), Versions(d));
    assert VersionsWithin(after, Versions(d));
  }

  lemma RemoveKeeps(d: Disk)
    requires Sound(d)
    ensures VersionsWithin(RemoveTemp(d), Versions(d)) && Read(RemoveTemp(d)) == Read(d)
  {
    NewDirAddsAVersion(d, d.dir.(temp := None));
  }

  lemma FailedSync(d: Disk, content: Content, io: Io)
    requires Sound(d) && io.open && io.write && !io.sync
    ensures var states := Commit(d, content, io);
            AllWithin(states, Versions(d)) && Read(LastState(states)) == Read(d)
  {
    OpenKeeps(d);
    TempDataKeepsVersions(OpenTemp(d), WriteTemp(OpenTemp(d), content));
  }

  lemma FiveWithin(a: Disk, b: Disk, c: Disk, d: Disk, e: Disk, rest: seq<Disk>, bound: set<Option<Content>>)
    requires VersionsWithin(a, bound) && VersionsWithin(b, bound) && VersionsWithin(c, bound)
    requires VersionsWithin(d, bound) && VersionsWithin(e, bound) && AllWithin(rest, bound)
    ensures AllWithin([a, b, c, d, e] + rest, bound)
  {
    var all := [a, b, c, d, e] + rest;
    forall k | 0 <= k < |all| ensures VersionsWithin(all[k], bound) {
      if k >= 5 {
        assert all[k] == rest[k - 5];
      }
    }
  }

  lemma FailedRename(d: Disk, content: Content, io: Io)
    requires Sound(d) && io.open && io.write && io.sync && !io.rename
    ensures var states := Commit(d, content, io);
            AllWithin(states, Versions(d)) && Read(LastState(states)) == Read(d)
  {
    OpenKeeps(d);
    PrepareKeeps(d, content, io.dirBefore);
    var synced := SyncTemp(WriteTemp(OpenTemp(d), content));
    var flushed := if io.dirBefore then SyncDir(synced) else synced;
    RemoveKeeps(flushed);
    FiveWithin(d, OpenTemp(d), WriteTemp(OpenTemp(d), content), synced, flushed,
               if io.remove then [RemoveTemp(flushed)] else [], Versions(d));
  }

  lemma FailedCommit(d: Disk, content: Content, io: Io)
    requires Sound(d) && !Committed(io)
    ensures var states := Commit(d, content, io);
            AllWithin(states, Versions(d)) && Read(LastState(states)) == Read(d)
  {
    if io.open && io.write {
      if io.sync {
        FailedRename(d, content, io);
      } else {
        FailedSync(d, content, io);
      }
    } else {
      FailedWrite(d, content, io);
    }
  }

  /** The disk right before the rename. */
  function Prepared(d: Disk, content: Content, io: Io): Disk {
    var synced := SyncTemp(WriteTemp(OpenTemp(d), content));
    if io.dirBefore then SyncDir(synced) else synced
  }

  /** The disk after the rename and the last directory sync. */
  function Renamed(flushed: Disk, io: Io): Disk {
    if io.dirAfter then SyncDir(RenameTemp(flushed)) else RenameTemp(flushed)
  }

  lemma CommittedStates(d: Disk, content: Content, io: Io)
    requires Committed(io)
    ensures var written := WriteTemp(OpenTemp(d), content); var flushed := Prepared(d, content, io);
            Commit(d, content, io) ==
            [d, OpenTemp(d), written, SyncTemp(written), flushed] + [RenameTemp(flushed), Renamed(flushed, io)]
  {
  }

  lemma FinishedCommit(d: Disk, content: Content, io: Io)
    requires Sound(d) && Committed(io)
    ensures var states := Commit(d, content, io);
            && AllWithin(states, Versions(d) + {Some(content)})
            && Read(LastState(states)) == Some(content)
            && (io.dirAfter ==> Versions(LastState(states)) == {Some(content)})
  {
    OpenKeeps(d);
    PrepareKeeps(d, content, io.dirBefore);
    var written := WriteTemp(OpenTemp(d), content);
    var flushed := Prepared(d, content, io);
    RenameAdds(flushed, content);
    CommittedStates(d, content, io);
    FiveWithin(d, OpenTemp(d), written, SyncTemp(written), flushed, [RenameTemp(flushed), Renamed(flushed, io)],
               Versions(d) + {Some(content)});
  }

  lemma CommitVersions(d: Disk, content: Content, io: Io)
    requires Sound(d)
    ensures AllWithin(Commit(d, content, io), Versions(d) + {Some(content)})
  {
    if Committed(io) {
      FinishedCommit(d, content, io);
    } else {
      FailedCommit(d, content, io);
    }
  }

  /** Crash safety: at every point of the commit, failed calls and ignored
      directory syncs included, a crash leaves in the target all of the new
      content or all of something that could already be read back before. */
  lemma CommitIsCrashSafe(d: Disk, content: Content, io: Io, k: nat, r: Option<Content>)
    requires Sound(d) && k < |Commit(d, content, io)| && MayReadAfterCrash(Commit(d, content, io)[k], r)
    ensures r == Some(content) || MayReadAfterCrash(d, r)
  {
    CommitVersions(d, content, io);
    CrashShowsAVersion(d);
    CrashShowsAVersion(Commit(d, content, io)[k]);
  }

  /** "Old or new" is exact: it holds at every point of every commit if and only
      if no earlier rename with other content is still waiting for a directory
      sync when the commit starts. */
  lemma OldOrNewIff(d: Disk, content: Content)
    requires Sound(d)
    ensures (forall io, k, r :: 0 <= k < |Commit(d, content, io)| && MayReadAfterCrash(Commit(d, content, io)[k], r)
                                ==> r == Read(d) || r == Some(content))
            <==>
            (forall j :: 0 <= j < |d.older| ==> ContentAt(d, d.older[j]) in {Read(d), Some(content)})
  {
    CrashShowsAVersion(d);
    if forall j :: 0 <= j < |d.older| ==> ContentAt(d, d.older[j]) in {Read(d), Some(content)} {
      forall io, k, r | 0 <= k < |Commit(d, content, io)| && MayReadAfterCrash(Commit(d, content, io)[k], r)
        ensures r == Read(d) || r == Some(content)
      {
        CommitIsCrashSafe(d, content, io, k, r);
      }
    }
    if forall io, k, r :: 0 <= k < |Commit(d, content, io)| && MayReadAfterCrash(Commit(d, content, io)[k], r)
                          ==> r == Read(d) || r == Some(content) {
      var io := Io(false, false, false, false, false, false, false);
      forall j | 0 <= j < |d.older|
        ensures ContentAt(d, d.older[j]) == Read(d) || ContentAt(d, d.older[j]) == Some(content)
      {
        assert Commit(d, content, io)[0] == d;
        assert ContentAt(d, d.older[j]) in Versions(d);
      }
    }
  }

  /** It does fail: with every directory sync refused, a crash while c is being written may bring back
      a, although b was committed over it. */
  lemma OldOrNewFails(a: Content, b: Content, c: Content)
    requires a != b && a != c
    ensures var d0 := Disk([Inode(a, true)], Dir(Some(0), None), []);
            var unsynced := Io(true, true, true, false, true, true, false);
            var d1 := LastState(Commit(d0, b, unsynced));
            && Sound(d0) && Sound(d1) && Read(d1) == Some(b)
            && MayReadAfterCrash(Commit(d1, c, unsynced)[0], Some(a))
  {
    var d0 := Disk([Inode(a, true)], Dir(Some(0), None), []);
    var unsynced := Io(true, true, true, false, true, true, false);
    var d1 := LastState(Commit(d0, b, unsynced));
    FinishedCommit(d0, b, unsynced);
    assert d1.older[0] == Dir(Some(0), None);
    assert DirMayYield(d1, d1.older[0], Some(a));
  }

  // ----- Loading and saving

  /** `latched` says that the last load of the state file failed. */
  datatype Store = Store(disk: Disk, latched: bool)

  datatype LoadResult = Loaded(jobs: seq<Job>) | LoadFailed

  datatype SaveResult = Saved | Refused | SaveFailed

  /** Whether the data directory can be made, whether the file can be read back, and how the commit fares. */
  datatype SaveEnv = SaveEnv(dirsOk: bool, probeError: bool, io: Io)

  predicate Unreadable(d: Disk, probeError: bool) {
    probeError || (Read(d).Some? && Read(d).value.Unparsable?)
  }

  /** A save refuses while the latch is set, and never replaces a file that is
      there but does not parse. In every other case it succeeds when the system calls do. */
  function Save(s: Store, jobs: seq<Job>, cap: nat, env: SaveEnv): (r: (Store, SaveResult))
    ensures r.1 == Saved <==>
            && env.dirsOk && !s.latched && !env.probeError
            && (Read(s.disk).None? || Read(s.disk).value.Queue?)
            && env.io.open && env.io.write && env.io.sync && env.io.rename
    ensures r.1 == Refused <==>
            env.dirsOk && (s.latched || env.probeError || (Read(s.disk).Some? && Read(s.disk).value.Unparsable?))
    ensures s.latched || (Read(s.disk).Some? && Read(s.disk).value.Unparsable?) ==> r.1 != Saved && r.0 == s
    ensures r.0.latched == s.latched
  {
    if !env.dirsOk then (s, SaveFailed)
    else if s.latched || Unreadable(s.disk, env.probeError) then (s, Refused)
    else
      (s.(disk := LastState(Commit(s.disk, Queue(Cap(jobs, cap)), env.io))),
       if Committed(env.io) then Saved else SaveFailed)
  }

  /** A load that finds a queue returns it capped, however its own rewrite fares;
      a failed load leaves the disk alone and sets the latch. */
  function Load(s: Store, readError: bool, cap: nat, env: SaveEnv): (r: (Store, LoadResult))
    ensures r.1.Loaded? <==> !readError && (Read(s.disk).None? || Read(s.disk).value.Queue?)
    ensures r.1 == LoadFailed ==> r.0 == Store(s.disk, true)
    ensures r.1.Loaded? ==> !r.0.latched && !readError
    ensures r.1.Loaded? && Read(s.disk).Some? ==>
              Read(s.disk).value.Queue? && r.1.jobs == Cap(Read(s.disk).value.jobs, cap)
    ensures r.1.Loaded? && Read(s.disk).None? ==> r == (Store(s.disk, false), Loaded([]))
  {
    if readError then (s.(latched := true), LoadFailed)
    else
      match Read(s.disk)
      case None => (s.(latched := false), Loaded([]))
      case Some(Unparsable(_)) => (s.(latched := true), LoadFailed)
      case Some(Queue(jobs)) =>
        var t := s.(latched := false);
        CapWithin(jobs, cap);
        if Count(jobs) <= cap then (t, Loaded(jobs))
        else (Save(t, Cap(jobs, cap), cap, env).0, Loaded(Cap(jobs, cap)))
  }

  /** The store of one process; every method leaves the state its specification names. */
  class StateFile {
    var disk: Disk
    var latched: bool

    function View(): Store
      reads this
    { Store(disk, latched) }

    method AtomicWrite(content: Content, io: Io) returns (ok: bool)
      modifies this`disk
      ensures disk == LastState(Commit(old(disk), content, io)) && (ok <==> Committed(io))
    {
      if !io.open {
        return false;
      }
      disk := OpenTemp(disk);
      if !io.write {
        disk := WriteTemp(disk, Unparsable(1));
        return false;
      }
      disk := WriteTemp(disk, content);
      if !io.sync {
        return false;
      }
      disk := SyncTemp(disk);
      if io.dirBefore {
        disk := SyncDir(disk);
      }
      if !io.rename {
        if io.remove {
          disk := RemoveTemp(disk);
        }
        return false;
      }
      disk := RenameTemp(disk);
      if io.dirAfter {
        disk := SyncDir(disk);
      }
      return true;
    }

    method SaveJobs(jobs: seq<Job>, cap: nat, env: SaveEnv) returns (r: SaveResult)
      modifies this`disk
      ensures (View(), r) == Save(old(View()), jobs, cap, env)
    {
      if !env.dirsOk {
        return SaveFailed;
      }
      if latched || Unreadable(disk, env.probeError) {
        return Refused;
      }
      var ok := AtomicWrite(Queue(Cap(jobs, cap)), env.io);
      return if ok then Saved else SaveFailed;
    }

    method LoadJobs(readError: bool, cap: nat, env: SaveEnv) returns (r: LoadResult)
      modifies this
      ensures (View(), r) == Load(old(View()), readError, cap, env)
    {
      var found := Read(disk);
      if !readError && found.None? {
        latched := false;
        return Loaded([]);
      }
      if readError || found.value.Unparsable? {
        latched := true;
        return LoadFailed;
      }
      latched := false;
      var jobs := found.value.jobs;
      var trimmed := Cap(jobs, cap);
      if Count(jobs) > cap {
        var ignored := SaveJobs(trimmed, cap, env);
      } else {
        CapWithin(jobs, cap);
      }
      return Loaded(trimmed);
    }
  }

  // ----- Runs

  datatype Op =
    | DoLoad(readError: bool, cap: nat, env: SaveEnv)
    | DoSave(jobs: seq<Job>, cap: nat, env: SaveEnv)
    | Outside(content: Option<Content>)  // something else rewrites or removes the file

  /** An operation runs to its end, or the machine stops at one of its disk states and the program
      starts again. */
  datatype Event =
    | Done(op: Op)
    | Crash(op: Op, at: nat, back: nat, junk: map<nat, Content>)

  function Rewritten(d: Disk, content: Option<Content>): Disk {
    match content
    case None => ChangeDir(d, d.dir.(target := None))
    case Some(c) => ChangeDir(d.(inodes := d.inodes + [Inode(c, true)]), d.dir.(target := Some(|d.inodes|)))
  }

  function Apply(s: Store, op: Op): Store {
    match op
    case DoLoad(readError, cap, env) => Load(s, readError, cap, env).0
    case DoSave(jobs, cap, env) => Save(s, jobs, cap, env).0
    case Outside(content) => s.(disk := Rewritten(s.disk, content))
  }

  function SaveStates(s: Store, jobs: seq<Job>, cap: nat, env: SaveEnv): (states: seq<Disk>)
    ensures states != [] && states[0] == s.disk && LastState(states) == Save(s, jobs, cap, env).0.disk
  {
    if !env.dirsOk || s.latched || Unreadable(s.disk, env.probeError) then [s.disk]
    else Commit(s.disk, Queue(Cap(jobs, cap)), env.io)
  }

  /** Every disk state an operation passes through, the first and the last included. */
  function States(s: Store, op: Op): (states: seq<Disk>)
    ensures states != [] && states[0] == s.disk && LastState(states) == Apply(s, op).disk
  {
    match op
    case DoLoad(readError, cap, env) =>
      if !readError && Read(s.disk).Some? && Read(s.disk).value.Queue? && Count(Read(s.disk).value.jobs) > cap
      then SaveStates(s.(latched := false), Cap(Read(s.disk).value.jobs, cap), cap, env)
      else [s.disk]
    case DoSave(jobs, cap, env) => SaveStates(s, jobs, cap, env)
    case Outside(content) => [s.disk, Rewritten(s.disk, content)]
  }

  /** The disk found after a crash: some directory state not synced away, and for data that was not
      synced whatever `junk` says. */
  function Restarted(d: Disk, back: nat, junk: map<nat, Content>): Disk {
    Disk(seq(|d.inodes|, i requires 0 <= i < |d.inodes| => Survivor(d.inodes[i], i, junk)),
         DirAfter(d, back), [])
  }

  function DirAfter(d: Disk, back: nat): Dir { if back < |d.older| then d.older[back] else d.dir }

  function Survivor(inode: Inode, i: nat, junk: map<nat, Content>): Inode {
    Inode(if inode.synced || i !in junk then inode.content else junk[i], true)
  }

  function Step(s: Store, e: Event): Store {
    match e
    case Done(op) => Apply(s, op)
    case Crash(op, at, back, junk) =>
      var states := States(s, op);
      Store(Restarted(if at < |states| then states[at] else LastState(states), back, junk), false)
  }

  function Run(s: Store, events: seq<Event>): Store
    decreases |events|
  {
    if events == [] then s else Run(Step(s, events[0]), events[1..])
  }

  /** One process: nothing crashes, and no load of the run succeeds or finds the file missing. */
  predicate LoadsFail(s: Store, events: seq<Event>)
    decreases |events|
  {
    events == [] ||
    (events[0].Done? && OpFails(s, events[0].op) && LoadsFail(Step(s, events[0]), events[1..]))
  }

  predicate OpFails(s: Store, op: Op) { op.DoLoad? ==> Load(s, op.readError, op.cap, op.env).1 == LoadFailed }

  /** The file as the outside alone would leave it. */
  function OutsideOnly(content: Option<Content>, events: seq<Event>): Option<Content>
    decreases |events|
  {
    if events == [] then content
    else OutsideOnly(if events[0].op.Outside? then events[0].op.content else content, events[1..])
  }

  /** The latch: from a failed load on, until a load succeeds or finds the file
      missing, no save and no load of this process changes the file. */
  lemma {:induction false} LatchProtects(s: Store, events: seq<Event>)
    requires s.latched && LoadsFail(s, events)
    ensures Run(s, events).latched && Read(Run(s, events).disk) == OutsideOnly(Read(s.disk), events)
    decreases |events|
  {
    if events != [] {
      LatchProtects(Step(s, events[0]), events[1..]);
    }
  }

  /** What a save leaves to be read: the capped queue if it succeeded, what was there if not. */
  lemma SaveWrites(s: Store, jobs: seq<Job>, cap: nat, env: SaveEnv)
    requires Sound(s.disk)
    ensures var (t, result) := Save(s, jobs, cap, env);
            Read(t.disk) == if result == Saved then Some(Queue(Cap(jobs, cap))) else Read(s.disk)
  {
    if Committed(env.io) {
      FinishedCommit(s.disk, Queue(Cap(jobs, cap)), env.io);
    } else {
      FailedCommit(s.disk, Queue(Cap(jobs, cap)), env.io);
    }
  }

  /** A load writes only when it had to drop jobs, and then what it returns is what is read from now on. */
  lemma LoadRewrites(s: Store, cap: nat, env: SaveEnv)
    requires Sound(s.disk) && Load(s, false, cap, env).1.Loaded? && Read(s.disk).Some?
    ensures var (t, result) := Load(s, false, cap, env); var jobs := Read(s.disk).value.jobs;
            && (Count(jobs) <= cap ==> t.disk == s.disk && result.jobs == jobs)
            && (Count(jobs) > cap && env.dirsOk && !env.probeError && Committed(env.io) ==>
                  Read(t.disk) == Some(Queue(result.jobs)))
  {
    var jobs := Read(s.disk).value.jobs;
    CapWithin(jobs, cap);
    CapTwice(jobs, cap);
    if Count(jobs) > cap {
      SaveWrites(s.(latched := false), Cap(jobs, cap), cap, env);
    }
  }

  /** What was saved is what is loaded, capped, and loading it writes nothing. */
  lemma SaveThenLoad(s: Store, jobs: seq<Job>, cap: nat, env: SaveEnv, later: SaveEnv)
    requires Sound(s.disk) && Save(s, jobs, cap, env).1 == Saved
    ensures var t := Save(s, jobs, cap, env).0;
            Load(t, false, cap, later) == (t, Loaded(Cap(jobs, cap)))
  {
    FinishedCommit(s.disk, Queue(Cap(jobs, cap)), env.io);
    CapKeeps(jobs, cap);
  }

  // ----- Crashes in whole runs

  /** What an operation may bring into the state file. */
  function Offers(s: Store, op: Op): set<Option<Content>> {
    match op
    case DoSave(jobs, cap, _) => {Some(Queue(Cap(jobs, cap)))}
    case DoLoad(_, cap, _) =>
      if Read(s.disk).Some? && Read(s.disk).value.Queue?
      then {Some(Queue(Cap(Cap(Read(s.disk).value.jobs, cap), cap)))} else {}
    case Outside(content) => {content}
  }

  function Offered(s: Store, events: seq<Event>): set<Option<Content>>
    decreases |events|
  {
    if events == [] then {} else Offers(s, events[0].op) + Offered(Step(s, events[0]), events[1..])
  }

  lemma RewriteKeeps(d: Disk, content: Option<Content>)
    requires Sound(d)
    ensures VersionsWithin(Rewritten(d, content), Versions(d) + {content})
  {
    var t := Rewritten(d, content);
    forall k | 0 <= k < |t.older|
      ensures DirSound(t, t.older[k]) && ContentAt(t, t.older[k]) in Versions(d)
    {
      assert t.older[k] == if k < |d.older| then d.older[k] else d.dir;
      assert DirSound(d, t.older[k]);
    }
  }

  lemma SaveStatesKeep(s: Store, jobs: seq<Job>, cap: nat, env: SaveEnv)
    requires Sound(s.disk)
    ensures AllWithin(SaveStates(s, jobs, cap, env), Versions(s.disk) + {Some(Queue(Cap(jobs, cap)))})
  {
    CommitVersions(s.disk, Queue(Cap(jobs, cap)), env.io);
  }

  /** Every operation passes through sound disks only, on which only old versions and its own offer can be read. */
  lemma StatesKeep(s: Store, op: Op)
    requires Sound(s.disk)
    ensures AllWithin(States(s, op), Versions(s.disk) + Offers(s, op))
  {
    match op {
      case DoSave(jobs, cap, env) =>
        SaveStatesKeep(s, jobs, cap, env);
      case DoLoad(_, cap, env) =>
        if Read(s.disk).Some? && Read(s.disk).value.Queue? {
          SaveStatesKeep(s.(latched := false), Cap(Read(s.disk).value.jobs, cap), cap, env);
        }
      case Outside(content) =>
        RewriteKeeps(s.disk, content);
    }
  }

  /** A crash leaves what `MayReadAfterCrash` says, and each of these is what some crash leaves. */
  lemma CrashReads(d: Disk, r: Option<Content>)
    ensures MayReadAfterCrash(d, r) <==> exists back, junk :: Read(Restarted(d, back, junk)) == r
  {
    forall back: nat, junk ensures MayReadAfterCrash(d, Read(Restarted(d, back, junk))) {
      assert DirMayYield(d, DirAfter(d, back), Read(Restarted(d, back, junk)));
    }
    if DirMayYield(d, d.dir, r) {
      SomeCrashReads(d, |d.older|, r);
    } else if MayReadAfterCrash(d, r) {
      var k :| 0 <= k < |d.older| && DirMayYield(d, d.older[k], r);
      SomeCrashReads(d, k, r);
    }
  }

  lemma SomeCrashReads(d: Disk, back: nat, r: Option<Content>)
    requires DirMayYield(d, DirAfter(d, back), r)
    ensures exists junk :: Read(Restarted(d, back, junk)) == r
  {
    var target := DirAfter(d, back).target;
    var junk := if r.Some? && target.Some? then map[target.value := r.value] else map[];
    var t := Restarted(d, back, junk);
    assert target.Some? && target.value < |d.inodes| ==>
        t.inodes[target.value] == Survivor(d.inodes[target.value], target.value, junk);
    assert Read(t) == r;
  }

  /** A crash at any disk state of an operation is an event, whatever it then leaves; the program starts
      again without a latch. */
  lemma CrashAnywhere(s: Store, op: Op, k: nat, r: Option<Content>)
    requires k < |States(s, op)| && MayReadAfterCrash(States(s, op)[k], r)
    ensures exists back, junk ::
              Read(Step(s, Crash(op, k, back, junk)).disk) == r && !Step(s, Crash(op, k, back, junk)).latched
  {
    CrashReads(States(s, op)[k], r);
    var back, junk :| Read(Restarted(States(s, op)[k], back, junk)) == r;
    assert Step(s, Crash(op, k, back, junk)) == Store(Restarted(States(s, op)[k], back, junk), false);
  }

  /** A crash keeps the disk sound and brings back nothing new. */
  lemma RestartKeeps(d: Disk, back: nat, junk: map<nat, Content>)
    requires Sound(d)
    ensures VersionsWithin(Restarted(d, back, junk), Versions(d))
  {
    var dir := DirAfter(d, back);
    assert DirSound(d, dir) && ContentAt(d, dir) in Versions(d);
    assert ContentAt(Restarted(d, back, junk), dir) == ContentAt(d, dir);
  }

  /** Every event, crashes in the middle of an operation included, leaves a sound disk, on which only
      old versions and the operation's own offer can be read. */
  lemma StepKeeps(s: Store, e: Event)
    requires Sound(s.disk)
    ensures VersionsWithin(Step(s, e).disk, Versions(s.disk) + Offers(s, e.op))
  {
    StatesKeep(s, e.op);
    var states := States(s, e.op);
    var k := if e.Crash? && e.at < |states| then e.at else |states| - 1;
    assert VersionsWithin(states[k], Versions(s.disk) + Offers(s, e.op));
    if e.Crash? {
      RestartKeeps(states[k], e.back, e.junk);
    }
  }

  lemma {:induction false} RunKeeps(s: Store, events: seq<Event>)
    requires Sound(s.disk)
    ensures VersionsWithin(Run(s, events).disk, Versions(s.disk) + Offered(s, events))
    decreases |events|
  {
    if events != [] {
      StepKeeps(s, events[0]);
      RunKeeps(Step(s, events[0]), events[1..]);
    }
  }

  /** A data directory with no state file. */
  const EMPTY := Store(Disk([], Dir(None, None), []), false)

  /** Over every run from an empty directory, with any syncs refused, any step failing and any number of
      crashes and restarts: the disk is sound, and after one more crash the file is missing or holds, whole,
      something that was saved, rewritten by a load or put there from outside. It is never torn. */
  lemma CrashAfterRun(events: seq<Event>, r: Option<Content>)
    requires MayReadAfterCrash(Run(EMPTY, events).disk, r)
    ensures Sound(Run(EMPTY, events).disk)
    ensures r.None? || r in Offered(EMPTY, events)
  {
    RunKeeps(EMPTY, events);
    CrashShowsAVersion(Run(EMPTY, events).disk);
    assert Versions(EMPTY.disk) == {None};
  }

  predicate Parses(content: Option<Content>) { content.Some? ==> content.value.Queue? }

  lemma {:induction false} OfferedParses(s: Store, events: seq<Event>)
    requires forall i :: 0 <= i < |events| && events[i].op.Outside? ==> Parses(events[i].op.content)
    ensures forall r :: r in Offered(s, events) ==> Parses(r)
    decreases |events|
  {
    if events != [] {
      OfferedParses(Step(s, events[0]), events[1..]);
    }
  }

  /** As long as the outside puts nothing in place that does not parse, no run with its crashes ends in a
      file that cannot be loaded. */
  lemma AlwaysLoads(events: seq<Event>, cap: nat, env: SaveEnv)
    requires forall i :: 0 <= i < |events| && events[i].op.Outside? ==> Parses(events[i].op.content)
    ensures Load(Run(EMPTY, events), false, cap, env).1.Loaded?
  {
    RunKeeps(EMPTY, events);
    OfferedParses(EMPTY, events);
    assert Versions(EMPTY.disk) == {None};
    assert Read(Run(EMPTY, events).disk) in Versions(Run(EMPTY, events).disk);
  }

  /** A crash anywhere inside a save, then a restart: what loads is the saved queue, capped, or what
      would have loaded had the crash come right before the save. */
  lemma CrashDuringSave(s: Store, jobs: seq<Job>, cap: nat, io: Io, k: nat, after: Store, env: SaveEnv)
    requires Sound(s.disk) && k < |Commit(s.disk, Queue(Cap(jobs, cap)), io)|
    requires MayReadAfterCrash(Commit(s.disk, Queue(Cap(jobs, cap)), io)[k], Read(after.disk))
    ensures Load(after, false, cap, env).1 == Loaded(Cap(jobs, cap)) || MayReadAfterCrash(s.disk, Read(after.disk))
  {
    CommitIsCrashSafe(s.disk, Queue(Cap(jobs, cap)), io, k, Read(after.disk));
    CapTwice(jobs, cap);
  }

  /** The same after any run from an empty directory: no crash during a save brings back anything but
      the saved queue, a missing file, or something offered before. */
  lemma CrashDuringSaveAfterRun(events: seq<Event>, jobs: seq<Job>, cap: nat, io: Io, k: nat, r: Option<Content>)
    requires k < |Commit(Run(EMPTY, events).disk, Queue(Cap(jobs, cap)), io)|
    requires MayReadAfterCrash(Commit(Run(EMPTY, events).disk, Queue(Cap(jobs, cap)), io)[k], r)
    ensures r.None? || r == Some(Queue(Cap(jobs, cap))) || r in Offered(EMPTY, events)
  {
    RunKeeps(EMPTY, events);
    CommitIsCrashSafe(Run(EMPTY, events).disk, Queue(Cap(jobs, cap)), io, k, r);
    if MayReadAfterCrash(Run(EMPTY, events).disk, r) {
      CrashAfterRun(events, r);
    }
  }

  /** With the last directory sync done, a crash during a save brings back the queue on disk or the
      saved one, and both load capped. */
  lemma OldOrNewQueue(s: Store, jobs: seq<Job>, cap: nat, io: Io, k: nat, after: Store, env: SaveEnv)
    requires Sound(s.disk) && s.disk.older == [] && k < |Commit(s.disk, Queue(Cap(jobs, cap)), io)|
    requires MayReadAfterCrash(Commit(s.disk, Queue(Cap(jobs, cap)), io)[k], Read(after.disk))
    ensures Load(after, false, cap, env).1 in {Loaded(Cap(jobs, cap)), Load(s, false, cap, env).1}
  {
    CrashDuringSave(s, jobs, cap, io, k, after, env);
    if MayReadAfterCrash(s.disk, Read(after.disk)) {
      CrashShowsAVersion(s.disk);
    }
  }
}
