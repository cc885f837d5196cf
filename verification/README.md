# hx-fortress, verified

A Dafny model of the stateful cores of the fortress daemon, and proofs of what each promises.

A fortress keeps an organization's session transcripts in a bucket the organization owns. Its daemon
moves that bucket to another one while clients go on writing (the storage migration), runs commands a
console asks for and survives dying in the middle of one (the command plane), replays writes that a
pause refused (the artifact park), keeps a log and lets others read and follow it, keeps an audit
trail on disk, audits what it holds against what it claims, and is itself watched from outside.

Every `await` of the original is a place where anything else may happen. The models say so: a method
that waits calls an `Await` that lets other callers, clients, roles, the writer of a log or the clock
take any number of steps the code admits, and that may find the process dead. Code between two waits
is atomic, because the daemon runs on one event loop. What is proved is therefore about every
interleaving, every run and every crash point, not about one path.

| file | what it holds |
|---|---|
| `IngestControl.dfy` | the pause's clamp, its durable anchor, and the refresh over both |
| `PauseGate.dfy` | the in-flight counter and the signature floor |
| `Fortress.dfy` | two buckets, the pause as requested and as enforced, the clients, the run's rows in the database: the world a migration runs in |
| `History.dfy` | every world's own list of what happened to it, replayed: what it means that one world became another |
| `Migration.dfy` | the migration run itself |
| `Commands.dfy` | the command plane: fence, polls, one-shot tickets, the in-flight file |
| `ArtifactReplay.dfy` | the park, its `.draining` twin, the drain, and the latch that starts one |
| `Utf8.dfy`, `Lines.dfy` | UTF-8 and lines, as the log readers need them |
| `LogTail.dfy`, `LogFollow.dfy`, `FileLogSink.dfy` | reading a log backwards, following it across rotations, rotating it |
| `AuditSpool.dfy`, `DaemonAudit.dfy`, `SpoolReclaim.dfy` | the audit spool, the daemon's transition records, the cap |
| `AuditVerdicts.dfy`, `AuditEngine.dfy`, `AuditWitness.dfy` | the residency audit |
| `Watchdog.dfy` | the liveness watchdog |
| `Wrappers.dfy`, `Bytes.dfy`, `Listing.dfy` | shared small things |

## Hypotheses

Each is a precondition, a flag a theorem is stated under, or a restriction of what an environment
step may do; none is an assumption about the code itself.

- Storage migration. A canonical that changes changes its byte length (`Versions`), since the code
  compares lengths; the target starts with canonicals the source once had; the hash is injective;
  signing and noting the signature are one step. Beats are at most `beatGap` apart, the gate's cached
  view lags the newest row by at most `staleness`, refreshes land in order, and
  `2 * (beatGap + staleness)` is at most one heartbeat: the flag `punctual`, which once broken stays
  broken. `Fortress.UnrefreshedGateReopens` and `Fortress.LateRefreshReopens` give the runs that show
  each is needed: a heartbeat renews the request without refreshing the gate, and a refresh that reads
  early and lands late opens it. `Fortress.UnrefreshedGateExactly` says exactly when a gate that is not
  refreshed stays closed, and `Fortress.LateRefreshExactly` exactly which late refreshes leave it closed.
  From the fence on nothing need be in time: refreshes need only land in order. Calls end, and signatures of calls then running expire, within a
  minute (`prompt`, for the barrier's liveness only). Nobody else writes pause episodes, or removes a
  copy record while the run goes on; a permanent delete is recorded under the session's base id, at
  any time, with any stamp up to now; all stamps are by one clock. The swap of the credentials takes
  less than the margin the fence demands. `Migration.Timely` is all of this at a cut, and the
  writes-held half of `Safe` is stated under it.
- Command plane. Rows move only requested, running, terminal, and are never removed; the fence comes
  before the first poll of a boot, and polls do not overlap; a claim recorded is a claim handed to the
  audit (what the audit does when its disk fails is in `DaemonAudit.dfy`).
- Park. Appended lines are whole. A read gives all of the file or nothing of it: every read is on
  record with what the file held, and what is lost is at most what a read that gave nothing missed
  (`Hidden`). Nothing is assumed of appends, renames and unlinks, which may fail, nor of the process,
  which may die.
- Logs. Files are well-formed UTF-8, a file that has been rotated away is whole lines, files only
  grow, and renames by the sink succeed. What a follower emits is stated where it joined its first file
  between two characters (`JoinedWell`), as it does wherever it starts from the beginning.
- Audit. Spool ids are never drawn twice; lines are whole.
- Witness. Its time bound is for questions that keep to their timeout and sleeps that keep to their
  length (`prompt`); its other bounds need nothing.

## Where the code and its documentation disagree

- `planSpoolReclaim` announces the span of what it drops, and takes it from the first and the last
  record of each file. A wall clock stepped back under a writer makes it another:
  `SpoolReclaim.SteppedBackClock` is a file whose announced span begins after it ends, and
  `SpoolReclaim.SpanExactly` says exactly when the span is right.
- The audit reads an answered sweep as an answer about every id in it, and the witness checks that a
  reply is a list, not that it names the ids it was asked about. `AuditWitness.EmptyReplyPassesForDenial`
  is the reply that tells the two apart, `AuditWitness.SilenceIsDenialExactly` the exact condition under
  which they agree.
- The replay of permanent deletes covers those since the run started and those of sessions on its
  record of copies. An object that an attempt wrote and died before recording, of a session whose purge
  began before the run did, is covered by neither. `Migration.LeftoverHappens` is a safe cut with such
  an object left; `Migration.LeftoverExactly` says exactly when a deleted session has something left at
  a cut, and `Migration.NothingResurrected` what is left then.
- `rotateKeepFromEnv` floors its setting, so a value below one gives a `keep` of 0. The sink still
  leaves one rotated segment and a reader told the same reads none: `FileLogSink.ToldOfNone` is two
  records of which it reads back one. `FileLogSink.ReadsAllStored` says exactly when a reader sees
  everything, and covers this and the readers that keep the default 5.
- Entries are replayed in the order they were parked, but a stamp that does not parse can leave no
  such order: `ArtifactReplay.UnparsedStampsCycle` is three entries each before the next. There is one
  exactly where no unparsed entry stands between two whose stamps go back (`Crossed`), and then the
  sort finds it: `ArtifactReplay.SortParked`. Where there is none the model lets it return any
  rearrangement.
- The verdict `no_record` is given to no session (`AuditVerdicts.NoRecordIsNeverGiven`), as the code
  itself remarks.

## Model

| member | source | states |
|---|---|---|
| `IngestControl.UnclampedWithinCap` | src/console/ingest-control.ts:49-66 | an episode armed at most the cap ahead and observed after it was written is enforced until the requested instant, never clamped |
| `IngestControl.PauseState.Observe` | src/console/ingest-control.ts:79-83 | a successful refresh replaces the view and clears the failure |
| `IngestControl.PauseState.ObserveUnavailable` | src/console/ingest-control.ts:85-88 | a failed read leaves the deadline in force untouched |
| `IngestControl.PausePlane.StampPauseAnchor` | src/console/runtime-files.ts:120-132 | an anchor is kept while its episode is the one in force, and replaced by another episode's |
| `IngestControl.PausePlane.RefreshPause` | src/host/main.ts:971-996 | one refresh takes the anchor file and the cached view through exactly one step of the run that `ClampOverRuns` is about |
| `IngestControl.OneEpisodeState` | src/host/main.ts:971-996 | over any run of refreshes, failures, deaths and restarts the anchor holds the first observation and an informed view was computed from it |
| `IngestControl.ClampOverRuns` | src/console/ingest-control.ts:49-66 | over any such run one unresumed episode has one deadline, within the request, the row's stamp plus the cap and the first observation plus the cap, and an informed process holds the gate closed exactly until it |
| `PauseGate.IngestQuiesce.Enter` | src/console/pause-gate.ts:76-78 | an admitted call is counted, and the signature floor stays |
| `PauseGate.IngestQuiesce.Leave` | src/console/pause-gate.ts:80-82 | a call that ends is no longer counted, and the count never goes below none |
| `PauseGate.IngestQuiesce.NoteSignature` | src/console/pause-gate.ts:98-104 | the floor becomes the later of itself and the expiry; a stamp that does not parse changes nothing |
| `Fortress.KnownByScript` | src/console/pause-gate.ts:151-206 | whatever clients, refreshes and the clock do between two lines of a run, what the run knows stays true: rows in order and overlapping, calls and signatures accounted for, and, once sealed and while timing holds, nothing more admitted, and, once quiet, the source unchanged |
| `Fortress.EnforcedRowUnexpired` | src/console/migration.ts:476-482 | while beats and refreshes keep the pace, the row the gate is enforcing has not run out: the freeze is continuous |
| `Fortress.GateClosedWhileHeld` | src/console/pause-gate.ts:183-206 | at every such instant before the budget ends the gate's own deadline is unexpired |
| `Fortress.EnforcedWithinRequest` | src/console/migration.ts:463-466 | the gate never enforces past the newest request, nor past the budget |
| `Fortress.ObservedGate` | src/host/main.ts:971-996 | a refresh that reads a row of the run's own enforces it exactly as asked |
| `Fortress.KnownByInsert` | src/console/migration.ts:463-466 | extending by a new row keeps the rows overlapping and everything else known |
| `Fortress.KnownByBeat` | src/console/migration.ts:476-482 | a beat that found, or made, more than half a window leaves the next one time enough |
| `Fortress.KnownBySeal` | src/console/migration.ts:505-519 | once the gate is seen closed nothing more is admitted while timing holds, and every signature still out expires within two minutes |
| `Fortress.KnownByQuiet` | src/console/migration.ts:521-539 | once the store is seen quiet under it, the source no longer changes |
| `Fortress.UnrefreshedGateReopens` | src/console/migration.ts:476-482 | a heartbeat alone does not hold the gate: unless it refreshes in time there is a run in which it opens with the newest request still standing |
| `Fortress.UnrefreshedGateExactly` | src/console/pause-gate.ts:183-206 | with no refresh the gate stays closed as long as the newest request stands, over every script, if and only if its own deadline reaches that far |
| `Fortress.LateRefreshReopens` | src/host/main.ts:971-1016 | with the gate closed, a refresh that read before the first row and lands now opens it at that very instant and lets a write in |
| `Fortress.LateRefreshExactly` | src/host/main.ts:971-1016 | a refresh, however late it lands, leaves the gate closed if and only if it read a row whose request has not run out |
| `Fortress.ShutByScript` | src/console/migration.ts:553-581 | a gate whose own deadline reaches an instant stays closed until then over a quiet store, whoever is late, as long as refreshes land in order |
| `History.HistoryOnlyGrows` | src/console/migration.ts:259-660 | of two worlds of one run the later has no less time, copies on record, permanent deletes (each with the stamp it was first given), admissions or rows |
| `History.ClosedAtEveryStep` | src/console/pause-gate.ts:183-206 | where the gate has not been open since it was proven closed, it was closed at every single step on the way |
| `Migration.ChainCovers` | src/console/migration.ts:463-482 | windows each issued while the one before was open leave no instant unrequested |
| `Migration.RequestedThroughout` | src/console/migration.ts:541-581 | for a cut of any run: no instant from the proof that the gate was closed to the end of the fence's margin was outside a requested window |
| `Migration.ClosedThroughout` | src/console/migration.ts:505-606 | where the pace was kept up to the fence, refreshes landed in order from there, and the swap took less than the margin, the gate itself was closed at every step of the run from the proof to the cut |
| `Migration.NothingResurrected` | src/console/migration-runner.ts:147-210 | whatever the target holds at the cut of a session whose permanent delete was on record when the deletes were listed, lanes included, was there before the run, byte for byte, the run never carried it, and the delete is older than the run |
| `Migration.LeftoverExactly` | src/console/migration-runner.ts:147-210 | a session whose permanent delete was on record when the deletes were listed has something left in the target at the cut if and only if something of it was there before the run, and its delete is older than the run and about nothing the run has on record |
| `Migration.LeftoverHappens` | src/console/migration-runner.ts:156-176 | such a cut there is: safe, timely, and with an object of a deleted session in the target, which an attempt wrote and did not record |
| `Migration.Migration.ArmPause` | src/console/migration.ts:463-466 | arming writes exactly one new row, for the window or what is left of the budget, or none where the insert threw |
| `Migration.Migration.Heartbeat` | src/console/migration.ts:476-482 | a beat remembers a window that lapsed for good; one half spent is renewed by exactly one row for the window or what is left of the budget, and any other is left alone |
| `Migration.Migration.AwaitInForce` | src/console/migration.ts:490-503 | what it reports in force is what the gate itself is enforcing, and reaches at least as far as was asked |
| `Migration.Migration.TargetIsCurrent` | src/console/migration.ts:319-362 | once the source is still: a full comparison says current if and only if the target has the session byte for byte or the source has none, and a comparison of lengths if and only if the canonicals are equal |
| `Migration.Migration.DigestsProve` | src/console/migration.ts:335-362 | equal digests of every sidecar mean equal sidecars, and equal sidecars equal digests |
| `Migration.Migration.CopyCanonical` | src/console/migration.ts:220-228 | a canonical counts as copied only if what the target gives back is it |
| `Migration.Migration.CopySession` | src/console/migration.ts:210-250 | a session copied while the source is still is in the target with every sidecar, and no other session's objects changed |
| `Migration.Migration.CopyMissing` | src/console/migration.ts:364-393 | while the source is still every listed session not on record is copied whole; only listed sessions are touched, and whatever is new in the target is on record |
| `Migration.Migration.RecordCopied` | src/console/migration-store.ts:57-71 | the session, and no other, is put on the run's record |
| `Migration.Migration.DeltaPass` | src/console/migration.ts:396-413 | a full pass over a still source leaves every session of it in the target, whatever earlier passes, records of copies or writes in between had left |
| `Migration.NarrowedToNothing` | src/console/migration.ts:396-413 | what was behind has been copied and what was not behind was left alone, so nothing is behind |
| `Migration.Migration.RunOffSignatures` | src/console/migration.ts:428-446 | the instant waited for is the signature floor when the drain was armed, and when it ends every signature noted before has expired |
| `Migration.Migration.DeleteToCompletion` | src/console/migration.ts:696-721 | at most 800 passes, after which nothing of the deleted session or its lanes is left, or the run throws before the cut |
| `Migration.Migration.ListTombstones` | src/console/migration-runner.ts:151-210 | exactly the deletes since the run started and those of sessions it has on record, as the database holds them at one instant of this call |
| `Migration.Migration.DeleteAll` | src/console/migration.ts:696-721 | every session of the list, each to completion, and nothing else |
| `Migration.Migration.ReplayTombstones` | src/console/migration.ts:672-721 | the sessions replayed are exactly those the query gives at one instant of this call, no object of any of them is left in the target, and nothing else was deleted |
| `Migration.Migration.AwaitQuiesced` | src/console/pause-gate.ts:264-289 | quiet means no call admitted is still running and every signature ever noted has expired; and where calls and signatures are prompt it is reached inside the barrier |
| `Migration.Migration.ProveClosed` | src/console/migration.ts:505-519 | the run goes on only from a gate proven closed, and otherwise says which proof was missing |
| `Migration.Migration.FinalPass` | src/console/migration.ts:541-551 | while the freeze holds nothing of the source is missing from the target but the deletes listed in this pass, which are exactly what the query gave then, and those are gone; whatever the pass brought is on record |
| `Migration.Migration.Fence` | src/console/migration.ts:553-581 | a window that lapsed at any time refuses the cut; passing means the newest window outlasts the margin and none has lapsed |
| `Migration.Migration.CutOver` | src/console/migration.ts:583-606 | the cut recorded is the world at the instant the credentials named the target, after the proof, the listing and the fence it was given; it was safe; and one that failed before did not switch |
| `Migration.Migration.UnderPause` | src/console/migration.ts:505-606 | from the first armed row the run ends in a safe cut in its own past, in a named refusal that says how far it had come, or in an exception with nothing switched |
| `Migration.Migration.ResumeIngest` | src/console/migration.ts:642-656 | the newest episode is released, or the result says it could not be |
| `Migration.Migration.Run` | src/console/migration.ts:259-660 | for any interleaving with clients and any record of earlier copies: the world left is what the world found has become; a switch has a cut on that way, after a proof on that way, with the target as it is left; at it no requested window had lapsed, the permanent deletes the run had to replay when it listed them are gone, and, where the pace was kept, the gate had been closed since the proof, no call was admitted since, none is running, and the target holds everything the source does but those; only a switch run pauses anything, every pause is released or reported, and every refusal says how far the run had come |
| `Commands.AtMostOnce` | src/console/commands.ts:220-292 | over any run an executor is entered at most once a boot, at most once more than the fences that redrove its row, and at most once ever for a row with a single-use credential |
| `Commands.ConsistentSpend` | src/console/commands.ts:266-269 | spending a ticket turns it into the one entry it stood for |
| `Commands.ConsistentFence` | src/console/commands.ts:132-173 | a fence may redrive only rows that were claimed and carry no credential, and each it redrives is one more entry allowed |
| `Commands.RecordsAreAnswers` | src/console/commands.ts:182-195 | in one life the audit is handed exactly what the routines answered, refusals included, in order |
| `Commands.CommandPlane.AddInFlight` | src/console/runtime-files.ts:76-83 | a call that returns has added the id to the file and removed none |
| `Commands.CommandPlane.RemoveInFlight` | src/console/runtime-files.ts:85-91 | the file loses the id and no other |
| `Commands.CommandPlane.ClaimRow` | src/console/commands.ts:258-272 | an accepted claim is on record, its id in the file and its ticket spent, before anything runs; a refused one is not in the file and leaves history and tickets as they were |
| `Commands.CommandPlane.RunClaimed` | src/console/commands.ts:273-289 | the executor starts right after its claim's record, on a request whose time has come and not run out, with its id in the file; exactly one answer is recorded, saying what it brought back or that it failed, and the id leaves the file |
| `Commands.CommandPlane.DriveRow` | src/console/commands.ts:228-289 | a row too early, too late or malformed is rejected with that reason on record and never run; a row handled is terminal; history only grows, a ticket goes only with a claim, and no other row is moved by this daemon |
| `Commands.CommandPlane.PollCommands` | src/console/commands.ts:220-292 | history only grows, tickets go only with a claim of their row; after a pass that returns no row that was there before it is still merely requested, every row that is not as it was has been moved by another role or answered for in this pass, and nothing was added to the in-flight file |
| `Commands.CommandPlane.FenceRow` | src/console/commands.ts:143-163 | one closed row: terminal, out of the file, with the record its kind calls for |
| `Commands.CommandPlane.RunBootFence` | src/console/commands.ts:132-173 | history only grows; every row listed, which is every row there was and any planted until then, is terminal or redriven; redriven rows were running, in the file and without a credential, and are still in the file; the tickets are exactly these; and every row changed was moved by another role or answered for |
| `Commands.CommandPlane.Live` | src/host/main.ts:1511-1549 | any number of lives, each a boot, a fence and polls, each cut short anywhere: history only grows, each row entered was entered by an event of it, each life redrives a row at most once, and at most once holds |
| `ArtifactReplay.SortParked` | src/console/artifact-replay.ts:134-142 | the entries rearranged, each place exactly once; and by stamp and then by place if and only if no unparsed entry stands between two whose stamps go back |
| `ArtifactReplay.UnparsedStampsCycle` | src/console/artifact-replay.ts:136-141 | three such entries: each precedes the next around a circle |
| `ArtifactReplay.CrossedHasNoOrder` | src/console/artifact-replay.ts:136-141 | where an unparsed entry stands between two whose stamps go back no rearrangement is in order |
| `ArtifactReplay.PrecedesOn` | src/console/artifact-replay.ts:136-141 | and everywhere else the comparator is transitive |
| `ArtifactReplay.EveryAttemptIsCounted` | src/console/artifact-replay.ts:147-168 | replayed, failed and dropped together are the entries taken, and `rewrote` has one key for each replayed |
| `ArtifactReplay.WaitKeeps` | src/console/artifact-replay.ts:27-30 | parking at any wait loses nothing owed, in a drain and between drains |
| `ArtifactReplay.RenameKeeps` | src/console/artifact-replay.ts:104-126 | overwriting the twin loses nothing, because what it held is in the park again |
| `ArtifactReplay.AppendKeeps` | src/console/artifact-replay.ts:117 | putting a line back moves it from what is to be replayed to the park |
| `ArtifactReplay.NothingLost` | src/console/artifact-replay.ts:94-169 | at every resting point each owed entry is on disk or was in a file whose read missed it, nothing on disk was invented, and until something goes wrong each line ever parked is settled or waiting exactly as often as it was parked |
| `ArtifactReplay.OwedUntilSettled` | src/console/artifact-replay.ts:27-30 | over a run of any length an entry that was owed when it began, or was parked since, is on disk when it ends unless an attempt of that run wrote it or declined it, or a read of a file that held it missed it |
| `ArtifactReplay.ArtifactPark.RecoverOrphans` | src/console/artifact-replay.ts:104-119 | what a dead drain left is back in the park before the rename, and dying here loses nothing |
| `ArtifactReplay.ArtifactPark.TakePark` | src/console/artifact-replay.ts:121-134 | everything owed when the drain began is among the entries taken, unless the rename failed or a read missed it, and wherever it stops all of it is still owed |
| `ArtifactReplay.ArtifactPark.Replay` | src/console/artifact-replay.ts:147-163 | every entry is attempted once, in order; one settles exactly by an attempt that wrote or declined it, and only then stops being owed |
| `ArtifactReplay.ArtifactPark.DrainOnce` | src/console/artifact-replay.ts:94-169 | wherever a drain stops, whatever was owed or parked meanwhile is owed still unless an attempt of this drain wrote or declined it, nothing is invented and no attempt is forgotten; where it returns it attempted each entry it took exactly once, in park order exactly where there is one, its counts add up to them, and what it took is all that was owed when it began, unless the rename failed or a read missed it |
| `ArtifactReplay.ArtifactPark.Refresh` | src/console/artifact-replay.ts:186-203 | paused or with its latch down it changes nothing but the latch; else a drain attempts all that was owed, and the latch stays up exactly if an attempt threw; a latch that is down owes only what arrived after a drain last took the file |
| `ArtifactReplay.ArtifactPark.Live` | src/host/main.ts:1003-1016 | all of this holds over any number of lives and refreshes, cut short anywhere |
| `Utf8.EncodeDecode` | src/log-tail.ts:54-61 | decoding keeps every byte: section 3 of RFC 3629 writes the decoded text back as it was |
| `Utf8.Cut` | src/log-tail.ts:68-75 | a text may be cut before any byte that starts a character, and decodes to what its halves decode to: no character is split |
| `Utf8.WholeAfter` | src/log-tail.ts:146-153 | holding back an incomplete character and decoding it with the next read is decoding the two reads as one |
| `Lines.SplitIsExact` | src/log-tail.ts:77 | splitting loses nothing and leaves no newline in a part |
| `Lines.SplitJoin` | src/log-tail.ts:76-80 | two texts put together share the part where they meet, and no other |
| `Lines.LinesJoin` | src/log-tail.ts:105-112 | after a newline the lines of what follows are just added |
| `LogTail.Gather` | src/log-tail.ts:81-84 | the lines gathered, newest first, are the end of the lines so far, and all of them until one too many was found |
| `LogTail.LeadingTail` | src/log-tail.ts:71-74 | exactly the bytes in front that continue a character |
| `LogTail.WalkedOn` | src/log-tail.ts:62-80 | one chunk further back, with the carried bytes and the carried line, is what decoding and splitting everything from there would give |
| `LogTail.ReadLastLinesOfFile` | src/log-tail.ts:42-91 | for every file, every chunk size of at least 1 and every n, the last n non-empty lines of the whole file decoded at once |
| `LogTail.ReadLastLines` | src/log-tail.ts:100-114 | the same across the live file and the segments, back to the first segment without a line |
| `LogFollow.ReadMore` | src/log-tail.ts:170-174 | a read completes exactly the characters and lines its bytes complete |
| `LogFollow.FollowingStays` | src/log-tail.ts:177-222 | what has been emitted stays right while the writer appends and rotates |
| `LogFollow.FollowingCloses` | src/log-tail.ts:181-188 | a file read to its end after it was rotated away has been read whole, with nothing left to carry |
| `LogFollow.LogFollower.Drain` | src/log-tail.ts:159-175 | whatever the file held has been read, and the lines it completed emitted |
| `LogFollow.LogFollower.Open` | src/log-tail.ts:189-203 | the first file is joined at its end or its beginning, every later one at its first byte, and where the first was joined does not change |
| `LogFollow.LogFollower.Poll` | src/log-tail.ts:178-205 | where the lookup sees a file, one is held afterwards unless the open was refused, none is held that had been rotated away by then, and all that the one held had by then has been read; nothing emitted is taken back |
| `LogFollow.LogFollower.Watch` | src/log-tail.ts:135-228 | over any number of polls and rotations: files are only added, the first is joined once, at its beginning if asked to and else where it ended at some instant of this call; no file is held that a lookup saw rotated away, the one held has been read to where it stood when the last pass began, nothing emitted is taken back, and where no file came and went unopened and the first was not joined inside a character what was emitted is every line completed since the follower joined, in order, each once |
| `LogFollow.EveryLineOnce` | src/log-tail.ts:125-134 | where no file came and went unopened and the first was not joined inside a character, what was emitted is every line completed by the bytes written since the follower joined, up to where it stands, whether it holds a file or none |
| `FileLogSink.FileLogSink.Shift` | src/host/file-log-sink.ts:71-78 | every segment one further on, the oldest gone, the live file the newest |
| `FileLogSink.FileLogSink.RotateIfNeeded` | src/host/file-log-sink.ts:63-83 | a full live file is rotated and no other, and only the oldest segment can be lost |
| `FileLogSink.FileLogSink.Write` | src/host/file-log-sink.ts:29-56 | the record ends the live file, segments stay contiguous, non-empty and whole lines, and all that is stored is the end of all that was written |
| `FileLogSink.FileLogSink.Tail` | src/log-tail.ts:100-114 | reading back gives the last n lines stored in the segments the reader knows of, and the last n ever written where rotation kept them |
| `FileLogSink.StoredLinesAreStored` | src/log-tail.ts:93-114 | what the reader calls the stored lines are the lines of the segments put together, oldest first |
| `FileLogSink.ReachIsKept` | src/log-tail.ts:106-112 | reading reaches every segment there is, as far as it was told |
| `FileLogSink.ReadsAllStored` | src/log-tail.ts:25-28 | a reader sees all that is stored if and only if it knows of as many segments as there are |
| `FileLogSink.ToldOfNone` | src/host/file-log-sink.ts:58-83 | a sink told to keep no segment stores both of two records, and a reader told of none reads back the second alone |
| `AuditSpool.LandingKeeps` | src/console/audit-spool.ts:340-379 | a record lands in the file it names, behind everything there, even where a rotation overtook it |
| `AuditSpool.ScriptKeeps` | src/console/audit-spool.ts:328-404 | over any interleaving of appends, failures and rotations numbers grow along each file and no record moves |
| `AuditSpool.IdentifiesOne` | src/console/audit-spool.ts:53-56 | a file id and a number name one record |
| `AuditSpool.ResolvesToItsIntent` | src/console/audit-spool.ts:474-482 | an outcome resolves to the intent it answers in any listing that has it, whichever files the two are in |
| `AuditSpool.AuditSpool.Append` | src/console/audit-spool.ts:328-379 | a record comes back only if it is new and on disk in the file it names, with the body given, its error redacted; where the file was full it is in a fresh one |
| `AuditSpool.AuditSpool.Rotate` | src/console/audit-spool.ts:381-404 | a fresh file id, numbers from the start, and every record where it was |
| `AuditSpool.AuditSpool.WriteIntent` | src/console/audit-spool.ts:406-423 | the intent is on disk before it is handed back |
| `AuditSpool.AuditSpool.WriteOutcome` | src/console/audit-spool.ts:425-445 | what it writes resolves to the intent it was given, in every listing of the disk |
| `DaemonAudit.DaemonAudit.Record` | src/console/daemon-audit.ts:127-166 | one record per transition; a terminal one carries the payload the routine was given, its error redacted on the way to disk, resolves to its own command's claim in every listing of the disk, and no claim is answered twice |
| `SpoolReclaim.PlanSpoolReclaim` | src/console/audit-spool.ts:530-564 | for any files: the least number of the oldest eligible files that brings usage and reserve inside the caps, or all of them, with their bytes, their records, and the span from the least first stamp to the greatest last one |
| `SpoolReclaim.EligibleInOrder` | src/console/audit-spool.ts:550-554 | every file of that writer that is not kept, each once, in the order of the listing, and no other |
| `SpoolReclaim.SteppedBackClock` | src/console/audit-spool.ts:553-560 | a file stamped 5 and then 3 is announced as the span from 5 to 3, which is not the span of its records |
| `SpoolReclaim.SpanExactly` | src/console/audit-spool.ts:553-560 | the announced start is the least stamp dropped if and only if no record is older than every file's first, and the end the greatest if and only if none is younger than every file's last |
| `SpoolReclaim.SpanOfSteadyClocks` | src/console/audit-spool.ts:553-560 | the span is right wherever no dropped file's stamps go back |
| `AuditVerdicts.PassesExactly` | src/console/audit-verdicts.ts:78-197 | a session passes exactly if its object is here and any copy elsewhere acknowledged, or its lanes account for its absence |
| `AuditVerdicts.NoRecordIsNeverGiven` | src/console/audit-verdicts.ts:174-181 | no session is ever called benign legacy |
| `AuditVerdicts.OnlyAnswersAreReported` | src/console/audit-verdicts.ts:78-182 | a verdict that says what let.ai answered is given only where it was asked and did answer, and the incident exactly where that answer is a delivery here |
| `AuditVerdicts.SilencesAreToldApart` | src/console/audit-verdicts.ts:115-152 | an id that is never sent, an answer that did not come and a question that was not put are three verdicts, each given exactly where it is the one |
| `AuditVerdicts.RefusalsNameTheCount` | src/console/audit-verdicts.ts:314-360 | a failed run names one failing counter with its count, and the incident before all others; any other gives exactly its notes, or that there is nothing to note |
| `AuditVerdicts.NotesNameTheCounts` | src/console/audit-verdicts.ts:361-393 | a qualified run names every counter that qualifies it, with its count, a witness that did not answer, a posture that was not refreshed, and nothing else |
| `AuditVerdicts.RollUpExactly` | src/console/audit-verdicts.ts:310-394 | failed exactly if a failing session was counted, clean exactly if none but settled ones were, under an answer and a fresh posture |
| `AuditEngine.CountersAddUp` | src/console/audit-engine.ts:311-348 | the counters add up to the sessions checked, which are the findings |
| `AuditEngine.FleetAgreesWithRows` | src/console/audit-engine.ts:280-293 | the fleet fails if and only if some row does, and is clean if and only if every row is settled |
| `AuditEngine.CleanMeansHeldHere` | src/console/audit-engine.ts:156-303 | of a clean run every session there is was found here, was among the ids of a sweep that was answered, and no answer named a copy of it; or it has its bytes under its lanes |
| `AuditEngine.ResidencyAudit.CountVerdict` | src/console/audit-engine.ts:311-348 | one finding more with this verdict and no other change |
| `AuditEngine.ResidencyAudit.LaneOwners` | src/console/audit-engine.ts:199-208 | exactly the sessions some listed key is a lane of |
| `AuditEngine.ResidencyAudit.CheckRow` | src/console/audit-engine.ts:228-278 | the finding its facts call for, one counter up, at most one operation spent |
| `AuditEngine.ResidencyAudit.Run` | src/console/audit-engine.ts:156-303 | a finding for each row reached, counts, fleet verdict, qualification, truncation and witness state that agree with them, within the budget |
| `AuditWitness.Batches` | src/console/audit-witness.ts:117-118 | the least number of batches with room for every id |
| `AuditWitness.WitnessClient.AskBatch` | src/console/audit-witness.ts:136-192 | every question is for this batch, at most one is answered, and that answer is the one given; none is given only where the time is out or the last reply ends the sweep; one question more than the waits it takes, waits within the cap, time within the cap and one wait |
| `AuditWitness.WitnessClient.Collect` | src/console/audit-witness.ts:193-202 | the three sets grow by exactly what the answers say |
| `AuditWitness.WitnessClient.Sweep` | src/console/audit-witness.ts:101-205 | the exchanges are exactly the questions of this sweep that were answered, in order; an answer is complete: every id in exactly one of them within the size, the sets the union of the answers; there is none only without a transport, with the time out, or after a reply that ends the sweep; at most twice the batches and twelve questions; waits within a cap that is itself at most four minutes |
| `AuditWitness.EmptyReplyPassesForDenial` | src/console/audit-witness.ts:186-205 | a reply that names none of the ids asked about completes a sweep, and no id of it was denied to be a copy |
| `AuditWitness.SilenceIsDenialExactly` | src/console/audit-witness.ts:193-205 | every id not reported as a copy was denied to be one if and only if every id asked about is named by an answer |
| `AuditWitness.CleanMeansDenied` | src/console/audit-engine.ts:156-303 | where the answers named every id asked about, a clean run means let.ai denied a copy of every session, or its bytes are under its lanes |
| `Watchdog.HeartbeatWatch.Observe` | src/container-watchdog.ts:178-201 | the verdict is the one the counted time since the first beat and since the last calls for |
| `Watchdog.ReadOn` | src/container-watchdog.ts:178-195 | what one reading more does to the beats and to the counted time |
| `Watchdog.NeverStaleWhileBeating` | src/container-watchdog.ts:154-202 | a file rewritten within every `staleMs` of watched time is never called stale |
| `Watchdog.StepsCountForNothing` | src/container-watchdog.ts:179-188 | replacing a clock step or unwatched time by any other changes no verdict |

## Left out

- SQL, HTTP, WebSocket, the console, the CLI and the rest of the daemon: plumbing without an invariant of its own; the SECURITY DEFINER routines and the stores appear as contracts.
- `verifyTarget` and everything a migration does after the cut; `.staging/` contents; progress counters and events.
- Run: the drain's signature TTL is not lowered and raised again, the window being a hypothesis (`prompt`); `awaitQuiesced` is a method of the run instead of taking the run's beat as a callback.
- Run: where timing is not as assumed it proves only that deletes stay deleted and that no requested window lapsed, because the code cannot see the gate reopen.
- Polls before the boot fence, and a park drain that overlaps a newly armed pause: excluded, and not prevented by the wiring.
- Torn partial appends, and log renames that fail: a torn final line is skipped by the readers.
- Drain: the branch for a file truncated in place, which files that only grow never take.
- The replay-incomplete marker and the pending list beside a drain, and the merging of replayed metadata.
- DrainOnce: two calls at once share one drain in the original; here calls do not overlap.
- AddInFlight: the read, the change and the write of the file are one step, as the original's queue per file makes them.
- Append: ownership, and the clamping of actors and sanitizing of parameters that go into a record; what redaction takes out is a function of the model.
- Record: transitions are recorded one at a time, as the command plane calls it; what its parameters spell out is a function of the model; `record` and `run` of the same class are not modelled.
- PlanSpoolReclaim: reading the directory and deleting the files.
- The wording of verdicts and qualifications, which are constructors here.
- Spend: the rate within a second is a counter of this model's clock, not a bound over any sliding second.
- Command executors, parameter validation (a function of the model), command pick-up order.
- Reading the watchdog's settings from the environment, and stopping the daemon.
