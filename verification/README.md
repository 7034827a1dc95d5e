# RusticDL: a verified model of its protocols

RusticDL is a download manager written in Rust. This project models the parts of it where many things
happen at once or where the outside world cannot be trusted, and proves what those parts promise.

| file | what it models |
|---|---|
| `ConnBudget.dfy`, `ConnProgress.dfy`, `ConnUpdates.dfy`, `ConnOrder.dfy` | host and global connection permits, resized while they are out |
| `Bandwidth.dfy` | the token bucket shared by all transfers, with a rate that changes at run time |
| `Segments.dfy` | cutting a file into byte ranges, the consistency check, how a job resumes |
| `RangeStatuses.dfy` | which answers to a range request may be written |
| `StreamBody.dfy`, `StreamAnswers.dfy` | the body loop, the three sinks it writes to, and what it answers |
| `TransferCodings.dfy` | header lists of codings |
| `Reassembly.dfy`, `ReassemblyProgress.dfy` | parallel segment workers over one file |
| `HistoryCap.dfy`, `Persistence.dfy` | the stored queue: history cap, load latch, crash-safe commit |
| `HyprlandIpc.dfy`, `Compositor.dfy`, `HideProtocol.dfy`, `ShowWorkspaces.dfy`, `ShowCalls.dfy`, `ShowProtocol.dfy` | hiding and showing the main window over Hyprland's socket |
| `KWinScript.dfy` | running one script inside KWin |
| `Civil.dfy` | day numbers to calendar dates |
| `UrlScanner.dfy`, `UrlPieces.dfy` | finding web addresses in pasted text |
| `Sums.dfy`, `FileBytes.dfy`, `Text.dfy`, `Wrappers.dfy` | sums, file contents, trimming and optional values, used by the others |

Shared-state protocols are state machines: every atomic action of the program is a step, any order of steps is a
run, and theorems quantify over all runs. Loops and methods that change fields are methods and classes, proved
equal to a function whose own properties are the theorems. Whatever the program cannot control (replies, delays,
lost messages, crashes, other tasks) is a parameter, so a theorem holds for every behaviour of it.

Results that a reader of the source would not expect:

* `is_consistent` accepts one overlong map at the largest 64-bit size (`Segments.SaturationAcceptsAnOverlongMap`);
  everywhere else it is exactly tiling.
* "All bytes counted" and "all bytes right" are not equivalent: a preallocated file of zeros can be right before
  a byte is counted. `Reassembly.FullMapIffWholeFile` says exactly when they agree.
* `closed_slice_matches` says in its comment that it wants exactly the slice, but of a slice of two bytes or more it
  also accepts a shorter front part (src/download/fetch.rs:780-785). The model follows the code;
  `RangeStatuses.ExactForOneByteIff` shows that the code does what the comment says for every answer exactly when at
  most one byte is asked for, and both callers ask for one byte (src/download/preflight.rs:171 and 200).
* "Old or new after a crash" needs that no earlier rename is still waiting for a directory sync, because the
  results of `sync_dir` are ignored. `Persistence.OldOrNewIff` is an equivalence, `Persistence.OldOrNewFails` a run
  of two saves where it fails. What a crash shows is still always a whole file, however many crashes and restarts
  came before it (`Persistence.CrashAfterRun`), and it always loads (`Persistence.AlwaysLoads`).
* The toggle of a hide keeps the overlay closed for good exactly when no earlier toggle may still take effect
  (`Compositor.ClosedForGoodIff`).
* Per host at most total can be broken by two `update_limits` calls whose swaps cross
  (`ConnUpdates.CrossedUpdatesBreakTheOrder`). `ConnUpdates.PerHostWithinTotalIff` says when it holds, for every run,
  and `ConnOrder.AlwaysOrderedIff` for which calls it holds in every order of their steps. In the program calls do not
  cross: the only caller (src/download/engine/commands/settings.rs:24) runs in the command loop, one command at a time
  (src/download/engine/mod.rs:222-240), so what it relies on is `ConnUpdates.OneAtATimeKeepsTheOrder`.

`dafny verify dfyconfig.toml` checks everything.

## Model

| member | source | states |
|---|---|---|
| ConnBudget.StepKeepsInv | src/download/conn_budget.rs:57-205 | every step of acquiring, waiting, interrupting, dropping and resizing keeps the permit accounts, the caps between 1 and 256 (64 per host), and the lock ownership |
| ConnBudget.LimitsAsAsked | src/download/conn_budget.rs:39-43 | limits in range are used as asked for; others become the nearest in range, per host never beyond the total |
| ConnBudget.PermitsAreConserved | src/download/conn_budget.rs:57-69 | after any interleaving from a new budget, available + held + swapped-in but unapplied resize = cap + uncollected debt, for the global and every host semaphore; overlapping resizes telescope |
| ConnBudget.NoMoreThanTheCapIsHeld | src/download/conn_budget.rs:57-69 | when no resize is under way and debts are repaid, at most the cap is held |
| ConnBudget.NewHostGetsTheDeltaOnce | src/download/conn_budget.rs:148-155 | a host created around a resize starts with exactly the current cap and no resize under way still has a delta for it |
| ConnBudget.InterruptKeepsNoSlot | src/download/conn_budget.rs:112-131 | an interrupted waiter holds neither slot afterwards, and a host permit it held is available again |
| ConnProgress.DeadlockFree | src/download/conn_budget.rs:89-130 | in every state of the invariant with a waiter, some acquire or resize step is enabled or a complete permit can be dropped |
| ConnProgress.StepDecreases | src/download/conn_budget.rs:57-205 | without new requests, every step (acquire, interrupt, drop, resize, shrink task) makes a well-founded measure smaller |
| ConnProgress.EveryWaiterCanBeServed | src/download/conn_budget.rs:89-131 | from every such state some continuation without interrupts or new requests grants a complete permit to every waiter |
| ConnProgress.EveryRunEnds | src/download/conn_budget.rs:57-205 | every schedule without new requests ends, in whatever order the semaphores serve |
| ConnProgress.StillMeansServed | src/download/conn_budget.rs:57-205 | where nothing can move without an interrupt or a new request, nobody waits, every update is applied, every debt is repaid and all permits are back at the current caps |
| ConnProgress.EveryWaiterIsServed | src/download/conn_budget.rs:89-131 | in every run without new requests that goes on until it stands still, each waiter of its first state that is not itself interrupted is granted its complete permit |
| ConnUpdates.PerHostWithinTotalIff | src/download/conn_budget.rs:57-69 | after any run, the limits are those of the calls that swapped each last, and per host is at most total exactly when one call set both, or the one that set the per-host limit asked for no more than the other asked for in all |
| ConnUpdates.OneAtATimeKeepsTheOrder | src/download/conn_budget.rs:57-69 | if no call sets the total between another call's two swaps, per host is at most total whenever no call is between them |
| ConnUpdates.CrossedUpdatesBreakTheOrder | src/download/conn_budget.rs:57-69 | a run of two finished calls that leaves total 1 and per host 2 |
| ConnOrder.AlwaysOrderedIff | src/download/conn_budget.rs:57-69 | given calls leave per host at most total in every order of their steps exactly when each one's clamped per-host limit is at most every other one's clamped total |
| ConnOrder.CrossingRun | src/download/conn_budget.rs:57-69 | for any two of the calls there is a finished run in which one sets the per-host limit last and the other the total |
| ConnUpdates.ResizeAlone | src/download/conn_budget.rs:158-188 | the protocol's steps on the global semaphore, run without interleaving, amount to the sequential resize |
| ConnUpdates.UpdateAlone | src/download/conn_budget.rs:57-69 | a whole update in protocol steps, global and every host, amounts to the sequential call |
| ConnUpdates.ResizeSemaphore | src/download/conn_budget.rs:158-188 | the loop gives the resized semaphore; available minus debt moves by exactly the change of the cap |
| ConnUpdates.ConnectionBudget.constructor | src/download/conn_budget.rs:46-54 | a new budget has the clamped limits, all global permits and no hosts |
| ConnUpdates.ConnectionBudget.UpdateLimits | src/download/conn_budget.rs:57-69 | a call on its own resizes the global and every host semaphore and leaves 1 <= per host <= total <= 256 |
| ConnUpdates.ConnectionBudget.TryAcquire | src/download/conn_budget.rs:134-146 | succeeds exactly when both semaphores have a permit and takes one of each; a failure leaves every permit where it was |
| Bandwidth.PotentialGrowsByRate | src/download/bandwidth.rs:138-148 | the tokens a refill would leave grow at most at the rate and stay within the capacity |
| Bandwidth.ChargesNeverExceedEarnings | src/download/bandwidth.rs:44-148 | over any run of takers and limit changes, bytes granted under a limit plus tokens left never exceed what was there plus what was earned, with one full bucket for each switch from unlimited |
| Bandwidth.RateBound | src/download/bandwidth.rs:107-148 | under a constant limit r, all takers together get at most capacity(r) + r x elapsed in any window, even after an unlimited period |
| Bandwidth.StaleRefillGrantsABucket | src/download/bandwidth.rs:44-56 | the extra bucket is real: turning a limit on after an unlimited period fills the bucket exactly when the idle time at the new rate is worth the capacity |
| Bandwidth.AcquirerIsChargedExactly | src/download/bandwidth.rs:58-74 | in every interleaving with other takers and changes between limits, an acquirer of n bytes is charged what it was granted, so exactly n when its loop is done |
| Bandwidth.ChargesAddUp | src/download/bandwidth.rs:107-122 | the charges of different acquirers add up to all charges of the run, which the rate bound covers |
| Bandwidth.WaitMakesProgress | src/download/bandwidth.rs:76-122 | each refused round followed by its sleep makes the number of rounds left smaller, because a quantum fits the capacity |
| Bandwidth.NewLimiterIsFull | src/download/bandwidth.rs:30-42 | a new limiter has the rate it was given, with zero and none meaning unlimited, and grants at once exactly up to two seconds of it or one quantum, whichever is more |
| Bandwidth.LimitTakesEffect | src/download/bandwidth.rs:44-56 | after a change the new rate is in force and what was saved up is kept, cut to the new capacity |
| Bandwidth.Limiter.constructor | src/download/bandwidth.rs:30-42 | a new limiter starts with a full, valid bucket |
| Bandwidth.Limiter.RefillAt | src/download/bandwidth.rs:138-148 | the in-place refill is the specified one |
| Bandwidth.Limiter.ChangeLimit | src/download/bandwidth.rs:44-56 | a limit change refills first and cuts the tokens to the new capacity |
| Bandwidth.Limiter.TakeNow | src/download/bandwidth.rs:107-122 | grants exactly when the refilled tokens suffice, charges what it grants, otherwise names the wait |
| Bandwidth.Limiter.AcquireQuantum | src/download/bandwidth.rs:76-104 | ends; charges the quantum exactly when it returns true, and false only after the control flag was read set; the flag is read before every try, never more than a poll interval and the lateness of the sleep apart |
| Bandwidth.Limiter.Acquire | src/download/bandwidth.rs:58-74 | under a limit, true charges exactly n, false charges less and only after the control flag was read set; unlimited charges nothing; the same bound on the time between reads of the flag |
| Segments.StructureEqIgnoresOnlyWritten | src/download/segment.rs:53-61 | two maps are structurally equal exactly when they are equal once written counts are erased |
| Segments.IsConsistent | src/download/segment.rs:63-84 | the loop with its running next offset computes the consistency check |
| Segments.ConsistentIffTiles | src/download/segment.rs:63-84 | the segments tile [0, total) in order with written <= length exactly when the check passes and the last end is below the largest offset |
| Segments.ConsistentIsTilingBelowMax | src/download/segment.rs:63-84 | for every total below the largest 64-bit value, the check passes exactly when the segments tile |
| Segments.SaturationAcceptsAnOverlongMap | src/download/segment.rs:81-83 | at the largest value a map with one byte too many passes |
| Segments.WrittenSumReachesTotal | src/download/segment.rs:49-51 | in a tiling map the written sum is at most the total, and equals it exactly when every segment is full |
| Segments.PartitionLoop | src/download/segment.rs:87-125 | the loop with its running offset builds the partition |
| Segments.PartitionTiles | src/download/segment.rs:87-125 | for every total and n the partition tiles and is consistent, has written nothing, lengths differ by at most one, and each is at least 1 MiB unless there is one segment |
| Segments.PartitionIsFresh | src/download/segment.rs:87-125 | a partition is of the whole file, in as many segments as counted, none of them begun |
| Segments.SegmentTotalIsLargest | src/download/segment.rs:97-99 | the number of segments is the largest that was asked for and keeps each at 1 MiB at least, and one when no number does |
| Segments.ResumesSegmentsIffTiles | src/download/resume.rs:16-24 | apart from maps that end at the largest offset, a job resumes in segments exactly when its map tiles; a map that does not, or a missing one at format version 1, needs a restart; without either, a job with bytes is a legacy partial and one without is fresh |
| RangeStatuses.ClassifyRangeStatus | src/download/fetch.rs:533-582 | the class of every answer: only a 206 that names its range is a part, only an unranged request from byte 0 takes a whole entity, and which statuses are redirects, denials, unsatisfiable or retryable |
| RangeStatuses.ClassifySlice | src/download/fetch.rs:706-778 | an answer is written exactly when it is a 206 naming a nonempty front part of the slice that does not contradict the known size; and exactly which rejections may be tried again |
| RangeStatuses.ClosedSliceMatches | src/download/fetch.rs:780-785 | what it accepts is the exact slice if and only if the answer reaches the slice's end |
| RangeStatuses.ExactForOneByteIff | src/download/preflight.rs:163-206 | it accepts exactly the answers that name the whole slice, for all answers, if and only if at most one byte is asked for, as both callers do |
| Reassembly.StepKeepsInv | src/download/multi.rs:740-954 | every step of every worker, including aborts with writes still in flight, clamping to synced bytes, preallocating and restarts, keeps, for files that begin empty, short or full: the map tiles, below each segment's high mark the file is remote, above it as at first |
| Reassembly.ChunkIsOneWrite | src/download/body.rs:234-262 | a worker's chunk, landed and credited, is one write of the positioned sink of `StreamBody`: same file, same position, its segment credited up to there; past the end of the answer both refuse |
| Reassembly.WorkersKeepApart | src/download/segment_io.rs:24-50 | no write, landed late or cut short, changes a byte outside its own segment; what the file gains there is zeros |
| Reassembly.ProgressIsNeverALie | src/download/multi.rs:907-954 | in every reachable state the map is consistent, resumes in segments, its sum is at most the total, and every byte it counts is in the file and is the remote byte |
| Reassembly.FileIsRemoteIff | src/download/multi.rs:740-954 | the file is the remote file exactly when it has its length and every offset no write has reached held the right byte from the start (zero in a hole) |
| Reassembly.FullMapMeansWholeFile | src/download/segment.rs:49-51 | once the written sum is the total, the file is the remote file |
| Reassembly.FullMapIffWholeFile | src/download/segment.rs:49-51 | "the sum is the total" and "the file is the remote file" agree exactly when the sum is the total, the file is too short, or some offset no write has reached did not hold the remote byte at first |
| Reassembly.SettledUnwritten | src/download/segment.rs:29-35 | once every write is credited, those offsets are the ones from a segment's remaining start to its end |
| Reassembly.WholeFileBeforeAnyWrite | src/download/segment_io.rs:60-66 | preallocating for a remote file of zeros gives the right file before any byte is counted |
| ReassemblyProgress.BeginAsksForTheRest | src/download/multi.rs:752-787 | a worker asks for the bytes right behind what its segment counts, and for none when that is all of it |
| ReassemblyProgress.RoundsGain | src/download/multi.rs:740-880 | in any interleaving without an abort, clamp or restart, a worker never falls back, gains at least a byte with every answer wholly credited, so needs no more of them than bytes are missing, and such an answer leaves the count right behind its last byte |
| ReassemblyProgress.OnlyClampsGoBack | src/download/multi.rs:907-954 | from every state of the invariant, no step but a clamp lowers a count |
| ReassemblyProgress.ClampLeavesTheDurable | src/download/multi.rs:536-546 | a clamp leaves the smaller of the count and what is durable, and `Completed` only where that is everything |
| ReassemblyProgress.RejectedAnswer | src/download/multi.rs:823-840 | a rejected answer changes neither the file nor a count; it is asked for again only when it proves nothing about the remote bytes and a retry is left, otherwise the segment fails |
| ReassemblyProgress.CreditCompletes | src/download/multi.rs:921-930 | a credit sets the count to the position of the sink and completes the segment exactly when that fills it |
| ReassemblyProgress.StreamEnds | src/download/multi.rs:853-880 | a stream that breaks for good fails its segment, one that ends with the segment full completes it, after any other end the worker begins again; none changes the file or a count |
| ReassemblyProgress.PreallocationAddsZeros | src/download/segment_io.rs:60-66 | preallocating keeps the bytes of the file and adds zeros up to its whole length |
| ReassemblyProgress.StoppedMeansDone | src/download/multi.rs:740-880 | a worker that was not aborted stops only with its segment failed, or completed and full |
| ReassemblyProgress.AbortedWriteMayLand | src/download/segment_io.rs:24-50 | the write of an aborted worker may land later, and then leaves the file as if the worker had gone on |
| ReassemblyProgress.ShortAnswersFill | src/download/multi.rs:842-868 | answers of any lengths, each beginning where the one before ended, fill the segment, and its worker stops with it completed |
| ReassemblyProgress.RestartWakes | src/download/multi.rs:752-770 | after a restart exactly the workers of segments that are not full have something to do |
| ReassemblyProgress.EveryTransferCanFinish | src/download/multi.rs:740-954 | from every state a transfer may be stopped in, some run restarts it and ends with everything counted and the file equal to the remote file |
| StreamBody.BodySink.constructor | src/download/body.rs:217-225 | a sink starts at its offset with nothing buffered |
| StreamBody.BodySink.FlushBuffer | src/download/body.rs:141-143 | a flush puts the buffered bytes right before the offset and nowhere else |
| StreamBody.BodySink.Write | src/download/body.rs:105-139 | each sink's in-place write is the specified one: whole, cut at the end, or refused as an overrun |
| StreamBody.PollOnce | src/download/body.rs:638-692 | one turn of the loop does exactly one step of the specification |
| StreamBody.StreamBodyLoop | src/download/body.rs:623-718 | the loop with its mutable sink, clock and credits equals the specified run |
| StreamBody.StreamIsStored | src/download/body.rs:623-718 | on every return without a disk error the file is the original with all delivered bytes put at the start offset and cut at the target; nothing dequeued is lost to pause or cancel; credits equal the growth, short of it only after an overrun |
| StreamBody.ExhaustedMeansComplete | src/download/body.rs:578-591 | `Exhausted` with a target means offset = target, and never comes from an HTTP/1 body that only ends by closing |
| StreamBody.AgainUsesUpRounds | src/download/body.rs:636-694 | each turn that goes on makes (target - offset, stall timeout - idle) smaller |
| StreamBody.LoopEnds | src/download/body.rs:636-694 | with a known target the loop ends on every stream, endless empty chunks and silence included |
| StreamBody.CountingIsExact | src/download/body.rs:178-206 | the counting sink never touches the file and counts every byte, stopping one byte past its limit |
| StreamAnswers.AnswerOfRun | src/download/body.rs:623-718 | every run on every sink goes on exactly while its rounds are ordinary, takes all they bring, and answers what the first other round alone decides: each outcome, in terms of the stream, the clock, the flag and the disk |
| StreamAnswers.WholeBodyIsExhausted | src/download/body.rs:697-717 | a body that ends in time after bringing exactly the missing bytes, or any number when no target is known, is reported as finished with its length |
| StreamAnswers.EndWithoutTarget | src/download/body.rs:578-591 | without a target, a stream that ends is finished unless it is a bare HTTP/1 close |
| StreamAnswers.IncompleteIff | src/download/body.rs:703-711 | `Incomplete` is answered exactly when the stream ends in time and in order with fewer bytes than the target |
| StreamAnswers.StoppedCarriesTheFlag | src/download/body.rs:638-700 | a stopped run carries the flag that was read, and a flag read in a round ends the run there |
| StreamAnswers.ReachedIsExhausted | src/download/body.rs:656-694 | a range filled by a longer chunk and a stream that breaks off after its last byte are finished bodies |
| TransferCodings.ListCodings | src/download/body.rs:353-388 | the loops over header lines and pieces list the codings of all lines in order |
| TransferCodings.PieceSays | src/download/body.rs:366-384 | a piece stands for its word, blanks around it taken away and case ignored: `identity`, `chunked` or unknown |
| TransferCodings.SplitOfJoin | src/download/body.rs:365 | splitting at commas gives back the pieces that were joined |
| TransferCodings.OneCodingVerdicts | src/download/body.rs:437-510 | the verdicts on a header line of one word: which texts are accepted, which end the body, which content codings are accepted |
| TransferCodings.AbsentAndUnreadable | src/download/body.rs:437-474 | no header line is accepted and ends no body; a line that cannot be read spoils every verdict |
| TransferCodings.AllowedIffAccepted | src/download/body.rs:476-510 | a list is allowed exactly when it is identity* or identity* with one final chunked, and ends itself exactly in the latter case |
| TransferCodings.LinesAndListAgree | src/download/body.rs:353-388 | several header lines and the one comma-joined line get the same verdicts |
| TransferCodings.EmptyPieceIsRejected | src/download/body.rs:462-474 | a piece of nothing but white space, in any header line and anywhere in it, makes the transfer codings unacceptable |
| HistoryCap.DroppedAreTheOldest | src/persistence.rs:263-286 | exactly the surplus of completed jobs is dropped, and each dropped one has a key before every kept completed one, ties in queue order |
| HistoryCap.OldestAreLeftOut | src/persistence.rs:263-286 | the capped queue lists the jobs at some indexes in order, and every job left out is completed and finished no later than each completed job listed |
| HistoryCap.CapKeeps | src/persistence.rs:263-286 | the result is a subsequence that keeps every other job and min(count, cap) completed ones |
| HistoryCap.CapTwice | src/persistence.rs:263-286 | capping is idempotent and does nothing within the cap |
| Persistence.CommitIsCrashSafe | src/persistence.rs:288-318 | after a crash or failure at any point of the commit, the file is the new bytes or something that could be read before it began |
| Persistence.OldOrNewIff | src/persistence.rs:288-318 | "all old or all new" holds at every point of every commit exactly when no earlier unsynced rename with other content is outstanding |
| Persistence.OldOrNewFails | src/persistence.rs:288-318 | with every directory sync refused, after a second save a crash may still bring back what it replaced |
| Persistence.FinishedCommit | src/persistence.rs:288-318 | a commit that reports success reads back as the new bytes, and survives every crash once its last directory sync worked |
| Persistence.FailedCommit | src/persistence.rs:288-318 | a commit that reports failure leaves what is read unchanged |
| Persistence.FirstSyncNarrows | src/persistence.rs:305-316 | once the first directory sync has worked, a finished commit leaves only the old and the new content possible, whatever becomes of the second sync |
| Persistence.TempIsGone | src/persistence.rs:308-316 | a synced temp file is left behind exactly when both its rename and its removal failed |
| Persistence.UnsyncedRenameTears | src/persistence.rs:302-303 | without the file sync before the rename, a crash could leave any bytes in the target |
| Persistence.Save | src/persistence.rs:226-259 | a save succeeds exactly when the directories can be made, the latch is clear, the probe works, the file is missing or parses, and open, write, sync and rename work; it is refused exactly when latched or over a file that cannot be read |
| Persistence.SaveWrites | src/persistence.rs:226-248 | after a save the file reads as the capped queue if it succeeded, and as before if not |
| Persistence.LoadRewrites | src/persistence.rs:207-223 | a load writes only when it had to drop jobs, and then what it returned is what is read from now on |
| Persistence.Load | src/persistence.rs:186-224 | succeeds exactly when the file is missing or can be read and parses; a failed load sets the latch and leaves the disk alone; a parsed load returns the capped jobs even when its own rewrite fails |
| Persistence.StateFile.AtomicWrite | src/persistence.rs:288-318 | ends in the last state of the specified commit and succeeds exactly when open, write, sync and rename did |
| Persistence.StateFile.SaveJobs | src/persistence.rs:226-248 | the in-place save is the specified one |
| Persistence.StateFile.LoadJobs | src/persistence.rs:186-224 | the in-place load is the specified one |
| Persistence.LatchProtects | src/persistence.rs:33-57 | over every run of one process after a failed load, until a load succeeds or finds the file missing, only the outside changes the file |
| Persistence.SaveThenLoad | src/persistence.rs:186-248 | loading what was saved gives the capped queue and writes nothing |
| Persistence.CrashReads | src/persistence.rs:288-318 | what may be read after a crash is exactly what a restart on some surviving directory, with anything for unsynced data, finds |
| Persistence.CrashAnywhere | src/persistence.rs:288-318 | a crash at any disk state of any operation is an event of a run, whatever it leaves to be read; the program starts again without a latch |
| Persistence.StepKeeps | src/persistence.rs:186-248 | every load, save and outside rewrite, run to its end or cut short by a crash at any disk state and followed by a restart, leaves a sound disk on which only old versions and its own offer can be read |
| Persistence.CrashAfterRun | src/persistence.rs:186-318 | over every run from an empty directory, with crashes and restarts in it, any sync refused and any step failing, a crash leaves no file or a whole one that was saved, rewritten by a load or put there from outside |
| Persistence.AlwaysLoads | src/persistence.rs:186-224 | as long as the outside puts nothing unparsable in place, a load after any such run succeeds: no crash makes the program refuse its own file |
| Persistence.CrashDuringSave | src/persistence.rs:226-248 | a crash anywhere in a save, on every sound disk, then a load, gives the saved queue capped or what a crash before the save could have shown |
| Persistence.CrashDuringSaveAfterRun | src/persistence.rs:226-318 | the same after every run from an empty directory |
| Persistence.OldOrNewQueue | src/persistence.rs:226-248 | with the last directory sync done, a crash in a save gives the old answer or the saved queue, the first save included |
| Compositor.ToggleCloses | src/hyprland.rs:851-860 | with the overlay on the focused monitor a toggle closes it on every monitor |
| Compositor.TwoTogglesReopen | src/hyprland.rs:743-746 | a toggle that takes effect twice opens the overlay again |
| Compositor.ClosedForGoodIff | src/hyprland.rs:851-860 | once the toggle was applied no late command reopens the overlay, exactly when no earlier toggle was still on its way |
| Compositor.ParkMovesOne | src/hyprland.rs:836-850 | a parking moves the one window and nothing else |
| Compositor.ToggleTurns | src/hyprland.rs:851-860 | a toggle takes the overlay away where it is on the focused monitor, otherwise brings it there from wherever it was |
| Compositor.UnansweredCommand | src/hyprland.rs:717-740 | an unanswered command has taken effect already, or changes nothing until it lands |
| Compositor.DispatchMoveThenLegacy | src/hyprland.rs:747-785 | the answer is that of the first call, or after a rejected Lua form that of the one legacy call that follows, where a call never written leaves the rejection standing; exactly these commands are written; the command takes effect at most once in all, late effects included; the dialect that worked is remembered |
| HideProtocol.CheckHidden | src/hyprland.rs:870-878 | `Hidden` is still true when the second of the two reads is in, whatever lands between them; `NotHidden` has a window or an overlay to show for it; `Unknown` exactly when a read failed |
| HideProtocol.OffScreenStays | src/hyprland.rs:686-706 | once every main window is parked and no overlay is open, no late command brings a window back |
| HideProtocol.ParkAll | src/hyprland.rs:836-850 | every listed window is moved at most once, nothing else is sent, and the flag says exactly whether a move that matters may have landed |
| HideProtocol.HideListed | src/hyprland.rs:836-867 | moves, check, at most one toggle, check: what it returns and what it rests on |
| HideProtocol.HideMainWindowsWithin | src/hyprland.rs:823-867 | from every compositor state: each move and the toggle at most once, the toggle only after the overlay was read on the focused monitor and then dispatched before the last check, no window moved elsewhere; true exactly when the last check read hidden (and it is) or failed to read and a command that matters may have landed; with no earlier toggle on its way, a closed overlay is never opened, and a compositor that answers, whichever one form it speaks, gets true exactly when there is a main window and the overlay is not open elsewhere only |
| ShowWorkspaces.TargetIsSafeIff | src/hyprland.rs:578-590 | a learned target is never empty, `e+0`, a special workspace or one with a comma, and passes the final filter exactly when it is a number or its name does not mention a special workspace further in |
| ShowWorkspaces.TargetIff | src/hyprland.rs:578-590 | which workspaces give a target, and which one: a positive id in decimal, otherwise the trimmed name unless it is empty, special or has a comma |
| ShowWorkspaces.DecimalRoundTrip | src/hyprland.rs:581 | the decimal text of an id reads back as the id and has no leading zero |
| ShowWorkspaces.TargetIsOnAnAllowedMonitor | src/hyprland.rs:597-616 | the target is on the first focused monitor if that names one, otherwise on one that shows a special workspace or is the only one |
| ShowWorkspaces.TargetOfMonitors | src/hyprland.rs:597-616 | exactly which target a list of monitors gives: that of the first focused one, else of the first with a special workspace, else of the only one |
| ShowCalls.DispatchMoveThenLegacy | src/hyprland.rs:747-785 | the answer is that of the first call, or after a rejected Lua form that of the one legacy call that follows, within the deadline; writes only this command; accepted exactly when a reply said ok |
| ShowCalls.QuickDispatch | src/hyprland.rs:747-785 | a compositor that answers every call within d and speaks one of the two forms accepts a command within 2 d |
| ShowProtocol.DeadlinesLeaveRoom | src/hyprland.rs:948-968 | both query deadlines leave half of the reserve |
| ShowProtocol.LearnRestoreWorkspace | src/hyprland.rs:1004-1020 | only queries, only before the deadline; a target exactly from the last answer, the first that names one; it gives up only when both queries are in or time is out |
| ShowProtocol.LearnTwice | src/hyprland.rs:1034-1035 | when a target is learned, half of the reserve is left; when none is, no answer named one, and it was asked twice or time is out |
| ShowProtocol.ReadMainWindows | src/hyprland.rs:971-991 | `Ready`, `Absent` and `Unread` exactly when the one query lists main windows, is answered without any, or is not answered |
| ShowProtocol.MoveAll | src/hyprland.rs:1037-1048 | dispatches the move of every window onto the target and nothing else, reports true exactly when some move was accepted, and has all of them accepted by a quick compositor |
| ShowProtocol.RestoreAddressedWindows | src/hyprland.rs:1028-1064 | moves before focus, nothing after the deadline, every window dispatched, the first move right after the answer that named the target; no target only when no answer named a safe one; true exactly when a move was accepted; with answers in time every window is moved, and focused when there is time for that |
| ShowProtocol.FallbackClassRestore | src/hyprland.rs:1083-1107 | true exactly when the class move was accepted and a later list shows every main window off the hidden workspace; with answers in time the move is accepted and a list is read |
| ShowProtocol.ShowMainWindowsWithin | src/hyprland.rs:932-946 | all of this from the start of a show, for every timing; it never runs past its budget and never moves onto an unsafe workspace; when every call is answered within d and two queries and two calls for each window fit, every main window is moved, in either dialect |
| KWinScript.CallKeepsOthers | src/linux_restore.rs:559-650 | whatever the bus does with one of our requests, now or late, nobody else's script is touched, displaced or run |
| KWinScript.UnansweredRequest | src/linux_restore.rs:559-650 | an unanswered request was carried out already, or changes nothing until it lands |
| KWinScript.AnsweredRequest | src/linux_restore.rs:295-338 | an answered request was carried out; which replies are good and which carry a number |
| KWinScript.TakenScriptIds | src/linux_restore.rs:220-235 | gives the numbers in use on either path layout, or nothing when either introspection fails |
| KWinScript.RunBoth | src/linux_restore.rs:326-338 | a run on a free number hits only our script, on whichever layout exists |
| KWinScript.LoadAndRun | src/linux_restore.rs:281-340 | one attempt: loads, then runs only if the number was free, with the file kept or removed accordingly |
| KWinScript.SweepOne | src/linux_restore.rs:343-352 | one name gets one to three unloads: fewer than three only if the last was answered, at least two after a failed run; its file is removed |
| KWinScript.BackAsItWas | src/linux_restore.rs:342-352 | with our names gone, live scripts and objects are those of the start |
| KWinScript.RunKWinScriptWith | src/linux_restore.rs:270-354 | only scripts this call loaded run; the names loaded are distinct, each is swept and every file removed on every exit; an unreadable bus loads nothing; on a working bus it succeeds exactly when one of the next four numbers is free, runs its script once and leaves KWin as it was |
| Civil.FromDaysSuccessor | src/format.rs:148-161 | the date of every day is a valid calendar date and the next day's is its calendar successor |
| Civil.FromDaysIsTheCalendar | src/format.rs:148-161 | the program's arithmetic gives the date reached from 1 January 1970 day by day |
| Civil.ToDaysOfCalendar | src/format.rs:148-161 | counting years, months and days back gives the day number |
| Civil.FallbackDateRoundTrip | src/format.rs:148-161 | for every unix time the date is valid, converts back to its day, and one day later is the successor |
| UrlScanner.NextCandidate | src/download/urls.rs:5-50 | one round cuts out the next candidate and leaves less text |
| UrlScanner.ExtractHttpUrls | src/download/urls.rs:1-52 | the loop over the shrinking rest computes the specified scan and ends |
| UrlScanner.ExtractedArePieces | src/download/urls.rs:1-52 | results are non-overlapping pieces of the input in order, valid, without white space or a second scheme, no two neighbours equal |
| UrlScanner.ScanOfJoined | src/download/urls.rs:1-52 | clean addresses joined by line breaks are found again, each once |
| UrlScanner.ExtractRoundTrip | src/download/urls.rs:1-52 | extracting from the results joined by line breaks gives the same list |
| UrlPieces.ExtractListsPieces | src/download/urls.rs:1-52 | for every text, the result is exactly the list of addresses among the pieces that start at a scheme and end at white space, another scheme or the end, less their final marks; only immediate repeats are left out |
| UrlPieces.EveryAddressIsFound | src/download/urls.rs:1-52 | wherever in a text a scheme starts, its piece is found if it is a valid address |
| UrlPieces.AddressInText | src/download/urls.rs:36-46 | a clean address in running text is found without the marks that follow it |

## Left out

* Fairness of waiters: an interruptible waiter queues again at every poll and may be overtaken while requests keep coming; once they stop, every waiter that is not interrupted is served (`ConnProgress.EveryRunEnds` and `ConnProgress.EveryWaiterIsServed`).
* Host key normalisation in the budget; keys are taken as given.
* Floating-point rounding in the limiter; reals are used.
* Bandwidth.Limiter.AcquireQuantum: the class method has the bucket to itself and a fixed limit, so a wake-up by `set_limit` is not modelled; several acquirers and limit changes are interleaved as events instead.
* Bandwidth.Limiter.Acquire: like its quantum, alone at the bucket.
* Saturation of 64-bit offsets in the append and counting sinks; offsets are unbounded there.
* StreamBody.StreamIsStored: says nothing about the file after a disk error, and the append sink's buffer reaches the file only at a flush.
* StreamBody.LoopEnds: needs a known target; without one an endless body is read for ever by design.
* An append sink opened past its target; `open` is taken to start at most at the target.
* Reassembly.StepKeepsInv: a body is assumed to deliver the remote bytes for the range its server named; validators that detect a changed file are not modelled.
* Reconnect counting and back-off of segment workers; whether a retry happens is free.
* Redirect following, the header wait, HTTP/3 fallback, cookies and TLS diagnostics.
* The text of `Content-Range`, of JSON and of the date string; they are parsed or printed elsewhere.
* The Windows date path and the relative dates of the last day.
* Several state paths at once in the latch set; one path is modelled.
* Another process changing `state.json` between the readability check of a save and its rename.
* HideProtocol.HideMainWindowsWithin: assumes that a refused command has no effect and that nobody else moves windows or overlays, and leaves times to the environment.
* ShowProtocol.ShowMainWindowsWithin: time passes only inside socket calls, and a call respects its deadline; scheduling slack is not modelled.
* Real sockets, D-Bus, process spawning and the helper threads that bound `connect`.
* KWinScript.RunKWinScriptWith: nobody else uses KWin's scripting meanwhile and its names are fresh; the waits only appear as moments when late requests may land, and a load that lands after the sweep stays loaded.
* User interface, settings, filename and duplicate handling, capture-window rules.
