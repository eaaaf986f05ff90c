# Verified models of the evaluation worker

This project models the parts of the repository where correctness depends on protocols,
durable state and cleanup rather than on single formulas, and proves properties of them for all
inputs, all kernel behaviours and all interleavings. `dafny verify dfyconfig.toml` checks all of it.

Everything outside the code is a parameter: the kernel, the clock, the socket and the
collaborating components answer from scripts of answers, a raised exception included. A theorem
about a run is therefore a theorem about every way these can answer. The few things assumed of them
are listed at the end. Digests are represented by the values they digest, or as opaque identifiers
where the code only compares them; signature verdicts and random values are parameters.

## What is modelled

- `Wire`, `NativeProtocol`: the 64-byte frame written by the C launcher and the parser of its
  transcripts. The accepted transcripts are characterised exactly.
- `LauncherWaits`, `Launcher`: the native launcher with its polling loops as a stateful process,
  proved equal to a reference run, and the comparison of everything it can send with everything the
  parser accepts, in both directions.
- `IntentLedger`, `LaunchLedger`, `LaunchSystem`: the two one-shot ledgers and the protocol across
  them, with crashes between commit and return. At most one launcher is ever spawned per intent.
- `CgroupLeaf`: creation, cleanup and retention of a cgroup leaf.
- `Wait`, `Evidence`, `Lifecycle`: one consumed attempt from cgroup retention to terminal evidence:
  waiting, signalling, reaping, cleanup of the retained leaf, and the evidence record with its
  validators.
- `EndToEnd`: the launcher and the orchestrator together.
- `DispatchLedger`, `Base64Url`: dispatch claims with retry lineages, and the strict key and
  signature encoding.
- `Elf`: the static-PIE validator and the embedded-identity scan.
- `CommentScanner`, `CorpusAudit`: the comment scanner and the corpus contamination audit.
- `PassAtK`, `Scoring`, `SampleGrid`: the estimator, score aggregation and the sample grid.
- `Common`, `Arithmetic`: shared types, sizes, quotients and sorting.
- `RootIsolation`: the disjointness test of the ingress roots.

## What turned out not to hold

Where a promise fails, the model keeps the code's behaviour, a lemma names an input, and the exact
condition is proved.

- The parser does not accept every error the launcher can send, because the grammar wants a non-zero
  error number in two families of cases. First, a run has already observed its cgroup empty when it
  fails, the emergency pass reaps the child, the last reading of `cgroup.events` does not say empty
  again and every close succeeds. Second, a frame or the kill write falls short, or the pipe gets
  unexpected descriptor numbers, with no error number left to report, and cleanup succeeds. The code
  tests for these short writes, but Linux is not known to produce them: sends on a sequenced-packet
  socket are whole, and the kill write is one byte. Outside this gap the two sides agree in both
  directions (`Launcher.ParserAcceptsRun`, `Launcher.GapIsReachable`, `Launcher.ShortSendIsReachable`,
  `Launcher.EveryLegalScriptIsSent`).
- The result validator rejects what the result builder makes exactly when a child was reaped
  although no launcher had been created; the orchestrator then raises instead of returning evidence
  (`Evidence.BuilderMeetsValidator`, `Lifecycle.OrphanRun`). The host guard refuses to start with
  pre-existing children (src/bpe/inert_orchestration.py:1309-1312), which makes this rare, not
  impossible.
- Stripping comments is not idempotent. Removing a splice can leave a new one behind, and a line
  comment right after a backslash becomes the newline of one even if the source holds none. Stability
  is decided exactly by the pieces of the source; the scan itself is idempotent
  (`CommentScanner.StableExactlyWithoutSplice`, `CommentScanner.SpliceCanReappear`,
  `CommentScanner.CommentCanSplice`).

The contracts also show limits of what the code promises:

- Wait evidence never claims too much, but a pass that raises after sending a signal leaves that
  signal out of the evidence (`Wait.WaitLauncherResilient`). A launcher given up on because the
  cleanup deadline passed is reported as past its exit deadline even if that is still ahead
  (`Timed` in `Wait`).
- A repeated cleanup of a retained leaf replays the first duration, which the first call's timeout
  bounds and not the later call's own (`CgroupLeaf.CallRepeatedly`).
- Incomplete cleanup may be reported although the leaf is gone; the converse is impossible
  (`CgroupLeaf.CleanupLeaf`).
- The handlers for constraint violations at the receipt inserts of both one-shot ledgers are
  unreachable (`IntentLedger.InsertNeverViolates`, `LaunchLedger.InsertNeverViolates`).

## Model

| member | source | states |
|---|---|---|
| `Wire.PutBe16` | worker/linux/inert_fixture_launcher/wire.h:9-12 | the two bytes written at the offset are the big-endian form of the value; every other byte of the buffer is unchanged |
| `Wire.PutBe32` | worker/linux/inert_fixture_launcher/wire.h:14-19 | the same for four bytes |
| `Wire.PutBe64` | worker/linux/inert_fixture_launcher/wire.h:21-30 | the same for eight bytes, although the code shifts the 64-bit value byte by byte |
| `Wire.EncodeFrame` | worker/linux/inert_fixture_launcher/wire.h:32-52 | after the in-place writes the 64-byte buffer is the frame layout that the receiving side unpacks, whatever the buffer held before |
| `Wire.EncodeUnpacks` | src/bpe/inert_native_protocol.py:388-447 | unpacking an encoded frame gives every field back |
| `Wire.UnpackEncodes` | src/bpe/inert_native_protocol.py:388-447 | any 64 bytes with the right constants are the encoding of their own fields, so the layout is a bijection |
| `Wire.BigEndianDecodes` | worker/linux/inert_fixture_launcher/wire.h:9-30 | decoding inverts encoding for every value that fits |
| `Wire.BigEndianEncodes` | worker/linux/inert_fixture_launcher/wire.h:9-30 | encoding inverts decoding for every byte string |
| `NativeProtocol.DecodeInvertsEncode` | src/bpe/inert_native_protocol.py:388-447 | a socket record decodes to a frame if and only if it is exactly the record an in-range frame is sent as: one wire form per frame, both directions |
| `NativeProtocol.ParseTranscript` | src/bpe/inert_native_protocol.py:545-649 | the loops of the transcript parser compute the recursive reference parser on every input, including every rejection |
| `NativeProtocol.DecodeRecords` | src/bpe/inert_native_protocol.py:582-590 | the decoding loop accepts exactly the sequences whose records all decode and are numbered from zero |
| `NativeProtocol.WalkFrames` | src/bpe/inert_native_protocol.py:592-649 | the state walk over success and error frames agrees with its recursive reference |
| `NativeProtocol.DecodeAllCharacterised` | src/bpe/inert_native_protocol.py:582-590 | decoding from any index succeeds with given frames if and only if every record is the wire form of its numbered frame |
| `NativeProtocol.WalkCharacterised` | src/bpe/inert_native_protocol.py:592-649 | the walk accepts exactly a full success run with exit code 0, or a success prefix and one grammar-legal error with its exit code; and the transcript it then returns is determined field by field |
| `NativeProtocol.ParseAcceptsExactly` | src/bpe/inert_native_protocol.py:195-300 | a transcript is accepted if and only if some legal script (a complete success, or a success prefix plus one error that the grammar allows there) sends exactly these records and ends with this exit code |
| `NativeProtocol.AcceptedScript` | src/bpe/inert_native_protocol.py:545-649 | every accepted transcript comes from a script, and the parsed result is the one that script describes |
| `NativeProtocol.ScriptIsAccepted` | src/bpe/inert_native_protocol.py:545-649 | the converse: every legal script is accepted and parsed to the result it describes |
| `NativeProtocol.ErrorExitIsExact` | src/bpe/inert_native_protocol.py:480-542 | an accepted error frame always carries the exit code its reason maps to, and that is the process's return code |
| `NativeProtocol.ClonedImpliesReapedAndEmpty` | src/bpe/inert_native_protocol.py:195-300 | over the whole grammar: an error that reports a created child also reports it reaped and its cgroup empty, unless the reason is incomplete cleanup |
| `NativeProtocol.AcceptedTranscriptsLeaveNothingBehind` | src/bpe/inert_native_protocol.py:545-649 | the same for every accepted transcript, successes included |
| `NativeProtocol.SuccessExitsZero` | src/bpe/inert_native_protocol.py:632-649 | a transcript read as success implies that the launcher exited with code 0 |
| `NativeProtocol.ParseIsWalk` | src/bpe/inert_native_protocol.py:545-649 | on well-numbered sent frames parsing is the walk over those frames |
| `LauncherWaits.AwaitReady` | worker/linux/inert_fixture_launcher/launcher.c:861-936 | the readiness loop computes its reference on every sequence of poll and read results |
| `LauncherWaits.ReadyExactly` | worker/linux/inert_fixture_launcher/launcher.c:861-936 | the wait succeeds if and only if one exact success record arrives and then end of file, with the control socket silent, the child alive and the deadline ahead all the while |
| `LauncherWaits.AwaitPopulated` | worker/linux/inert_fixture_launcher/launcher.c:938-982 | the same for the loop that waits until the cgroup is populated |
| `LauncherWaits.PopulatedExactly` | worker/linux/inert_fixture_launcher/launcher.c:938-982 | it succeeds if and only if some turn reads the cgroup as populated and nothing happened before |
| `LauncherWaits.AwaitStop` | worker/linux/inert_fixture_launcher/launcher.c:1001-1047 | the same for the loop that waits for the stop |
| `LauncherWaits.StopExactly` | worker/linux/inert_fixture_launcher/launcher.c:1001-1047 | it succeeds if and only if the child's first report is the expected stop and nothing happened before |
| `LauncherWaits.AwaitKilled` | worker/linux/inert_fixture_launcher/launcher.c:1050-1114 | the same for the loop that waits for exit and emptiness in either order, with and without watching the control socket |
| `LauncherWaits.KilledSawBoth` | worker/linux/inert_fixture_launcher/launcher.c:1050-1114 | success means that both were seen, and the exit report returned is the first one |
| `LauncherWaits.CalmTurnsShowBoth` | worker/linux/inert_fixture_launcher/launcher.c:1050-1114 | conversely, turns without trouble that show both are enough |
| `Launcher.Process.SetFailure` | worker/linux/inert_fixture_launcher/launcher.c:150-158 | only the first diagnosis is ever kept |
| `Launcher.Process.EmitFrame` | worker/linux/inert_fixture_launcher/launcher.c:188-215 | a frame is sent exactly when the socket is usable, the peer open, the frame bound not reached and the send succeeds; otherwise nothing changes |
| `Launcher.Process.ControlFailed` | worker/linux/inert_fixture_launcher/launcher.c:692-712 | each readiness event gets its diagnosis and closes exactly the channel state it should |
| `Launcher.Process.ControlQuiet` | worker/linux/inert_fixture_launcher/launcher.c:714-736 | the check passes exactly on silence; otherwise the process is stopped at the failure site that the event calls for |
| `Launcher.Process.ValidateAndGreet` | worker/linux/inert_fixture_launcher/launcher.c:1241-1272 | startup either reaches the state with one frame sent or stops at the first failing check with its diagnosis |
| `Launcher.Process.CloneFixture` | worker/linux/inert_fixture_launcher/launcher.c:797-859 | cloning leaves a live child with both flags set, or stops with the diagnosis of the first failing call and the child recorded as created exactly if it was |
| `Launcher.Process.WaitChildReady` | worker/linux/inert_fixture_launcher/launcher.c:861-982 | readiness ends with two frames sent and the no-exec flag, or at the failure site that the two loops and the checks after them call for |
| `Launcher.Process.StopAndObserve` | worker/linux/inert_fixture_launcher/launcher.c:993-1048 | stopping the child ends with three frames sent and both stop flags, or at the failure site that the loop and the checks after it call for |
| `Launcher.Process.ObserveKilledAndEmpty` | worker/linux/inert_fixture_launcher/launcher.c:1346-1357 | after the kill the exit and empty flags are set exactly if the loop ends with the expected exit report; otherwise the run stops at the site that the loop's end calls for, with the flags it had |
| `Launcher.Process.KillAndObserve` | worker/linux/inert_fixture_launcher/launcher.c:1337-1372 | killing the cgroup ends with four frames sent and the exit and empty flags, or at the failure site that the loop and the exit report call for, a kill write that falls short included |
| `Launcher.Process.Finish` | worker/linux/inert_fixture_launcher/launcher.c:1116-1127 | reap, final checks and close end with all nine flags, or at the right failure site |
| `Launcher.Process.CloseOwned` | worker/linux/inert_fixture_launcher/launcher.c:1179-1194 | everything owned is closed once; the result is whether all closes succeeded |
| `Launcher.Process.EmergencyCleanup` | worker/linux/inert_fixture_launcher/launcher.c:1129-1167 | success means the child was seen dead and the cgroup empty, the child was reaped and the cgroup read as empty once more; the flags reported are exactly what happened, also when the pass fails half way |
| `Launcher.Process.Fail` | worker/linux/inert_fixture_launcher/launcher.c:1397-1428 | incomplete cleanup takes precedence over any earlier diagnosis; the error frame and exit code are those of the terminal record |
| `Launcher.Process.RunToExit` | worker/linux/inert_fixture_launcher/launcher.c:1196-1428 | for every sequence of kernel answers the stateful process sends the frames and returns the exit code of the reference run |
| `Launcher.FirstFailureIsLegal` | worker/linux/inert_fixture_launcher/launcher.c:1241-1428 | wherever a run fails with its channel open, its terminal record is in the parser's grammar if and only if the run is not in a precisely described gap |
| `Launcher.ParserAcceptsRun` | worker/linux/inert_fixture_launcher/launcher.c:1196-1428 | for every sequence of kernel answers: the parser accepts the run if and only if its terminal record was delivered and the run is not in the gap |
| `Launcher.GapIsReachable` | worker/linux/inert_fixture_launcher/launcher.c:1129-1167 | one half of the gap is real: a concrete run sends an error record with exit code 68 that the parser rejects |
| `Launcher.ShortSendIsReachable` | worker/linux/inert_fixture_launcher/launcher.c:188-215 | so is the other half: a hello frame cut short, which the code tests for although whole-packet sends should rule it out, is reported with error number 0 and exit code 66, and the parser rejects it |
| `Launcher.ReachTerminal` | worker/linux/inert_fixture_launcher/launcher.c:1397-1428 | every error record the grammar allows is the terminal record of some run |
| `Launcher.EveryLegalScriptIsSent` | src/bpe/inert_native_protocol.py:195-300 | completeness: every script the parser accepts is sent, frame for frame and with its exit code, by some run of the launcher; the grammar contains nothing unreachable |
| `EndToEnd.ReportsExactlyItsExit` | src/bpe/inert_orchestration.py:2148-2231 | both sides together: for every launcher run whose frames arrive whole, the orchestrator can read success from them if and only if the launcher exited with code 0 |
| `EndToEnd.FinishedRunSucceeds` | src/bpe/inert_orchestration.py:2148-2231 | a run that exits with 0 is replayed as an accepted, succeeded transcript |
| `EndToEnd.UnfinishedRunFails` | src/bpe/inert_orchestration.py:2148-2231 | whatever any other run managed to send is never replayed as success |
| `EndToEnd.FinishedRunWasObserved` | worker/linux/inert_fixture_launcher/launcher.c:1281-1396 | an exit with code 0 vouches for the child's handshake, a populated cgroup, the stop and then the kill as its first reports, and an empty cgroup |
| `IntentLedger.Ledger.ClaimIntent` | src/bpe/inert_fixture.py:1763-2095 | the method leaves the database and returns the outcome of the reference claim transaction, for every call and every prior content |
| `IntentLedger.ClaimShape` | src/bpe/inert_fixture.py:1763-2095 | whatever a call does, it is one of four moves: nothing, clock only, clock and reservation, or clock, reservation and receipt together; a receipt is never stored without its reservation |
| `IntentLedger.ClaimKeeps` | src/bpe/inert_fixture.py:1763-2095 | every call keeps the ledger invariant (unique identities, receipts matching reservations, times below the clock) and only ever extends the ledger |
| `IntentLedger.ClaimsExactlyWhen` | src/bpe/inert_fixture.py:1763-2095 | a receipt is issued if and only if the call is authentic, bound here, inside its window at both clock readings, time has not moved back, every identity is fresh, and the receipt can be built |
| `IntentLedger.InsertNeverViolates` | src/bpe/inert_fixture.py:1989-2081 | on a reachable ledger the receipt insert cannot hit a uniqueness or foreign-key constraint, so the handler for it is never entered |
| `IntentLedger.RunKeeps` | src/bpe/inert_fixture.py:1763-2095 | the invariant and monotone growth hold over every sequence of calls |
| `IntentLedger.ReservedStaysAsItIs` | src/bpe/inert_fixture.py:1763-2095 | no call changes what is stored for a reserved intent or issues a receipt that shares its id or nonce |
| `IntentLedger.ReservedForever` | src/bpe/inert_fixture.py:1763-2095 | the same over every continuation: once reserved, an intent stays claimed or tombstoned for ever and every later claim is refused |
| `IntentLedger.NoSecondReceipt` | src/bpe/inert_fixture.py:1763-2095 | after a claim no continuation issues a second receipt for the same id or nonce |
| `IntentLedger.RecoveryIsExact` | src/bpe/inert_fixture.py:2232-2374 | recovery returns a receipt if and only if that receipt is stored for this intent and trust store, and reports already-claimed exactly for a tombstone |
| `IntentLedger.ClaimThenRecover` | src/bpe/inert_fixture.py:2097-2374 | round trip: after any later calls, recovery returns exactly the receipt that the claim returned |
| `IntentLedger.ExpiredForever` | src/bpe/inert_fixture.py:1795-1824 | once the durable clock has passed an expiry, no continuation claims or even reserves that intent |
| `IntentLedger.LateClaimShutsOut` | src/bpe/inert_fixture.py:1795-1824 | a refused late call still moves the clock, and thereby shuts its intent out for ever |
| `LaunchLedger.Ledger.ConsumeLaunchAttempt` | src/bpe/inert_launch.py:1229-1530 | the method leaves the database and returns the outcome of the reference transaction when authentication succeeds, and changes nothing otherwise |
| `LaunchLedger.ConsumeShape` | src/bpe/inert_launch.py:1229-1530 | every call is one of four moves, and an attempt receipt is never stored without its reservation |
| `LaunchLedger.ConsumeKeeps` | src/bpe/inert_launch.py:1229-1530 | every call keeps the ledger invariant and only extends the ledger |
| `LaunchLedger.ConsumesExactlyWhen` | src/bpe/inert_launch.py:1229-1530 | an attempt is consumed if and only if time has not moved back, the claim's window is open, no identity was used before, and the receipt can be built |
| `LaunchLedger.InsertNeverViolates` | src/bpe/inert_launch.py:1440-1516 | on a reachable ledger the attempt insert cannot hit a constraint |
| `LaunchLedger.ReservedForever` | src/bpe/inert_launch.py:1229-1530 | once reserved, a claim keeps its receipt or tombstone over every continuation, and any overlapping claim is refused |
| `LaunchLedger.NoSecondReceipt` | src/bpe/inert_launch.py:1229-1530 | no continuation issues a second attempt receipt for an overlapping claim |
| `LaunchLedger.RecoveryIsExact` | src/bpe/inert_launch.py:1634-1784 | recovery returns exactly the stored receipt, and reports already-consumed exactly for a tombstone |
| `LaunchLedger.ConsumeThenRecover` | src/bpe/inert_launch.py:1634-1784 | round trip: whatever is called on either ledger afterwards, and however late, recovery returns exactly the receipt that the consumption returned |
| `LaunchLedger.ExpiredForever` | src/bpe/inert_launch.py:1274-1302 | an attempt past its expiry is refused over every continuation and never becomes reserved |
| `LaunchLedger.AuthenticationVouches` | src/bpe/inert_launch.py:489-605 | authenticated inputs carry a receipt that the claim ledger really holds, for the very payload of the intent, claimed inside its window |
| `LaunchLedger.AuthenticationLasts` | src/bpe/inert_launch.py:489-605 | authentication without the time checks outlasts every continuation of both ledgers |
| `LaunchLedger.ConsumeKeepsAnchored` | src/bpe/inert_launch.py:1229-1530 | consumption keeps every launch reservation anchored in a stored claim with ordered times |
| `LaunchSystem.StepKeeps` | src/bpe/inert_orchestration.py:2976-3118 | every step of any caller (claim, authenticate, consume, crash, verify, recover, spawn) keeps the joint invariant of both ledgers, all runs and the history |
| `LaunchSystem.ExecuteKeeps` | src/bpe/inert_orchestration.py:2976-3118 | hence over every interleaving of any number of runs |
| `LaunchSystem.AtMostOneSpawnPerIntent` | src/bpe/inert_orchestration.py:2976-3118 | in every history no two spawns share an intent id, nonce or claim: at most one launcher per intent, whatever crashes and retries happen |
| `LaunchSystem.SpawnOnlyAfterReturnAndVerify` | src/bpe/inert_orchestration.py:2976-3107 | before every spawn the same run was handed the receipt and then verified it; the receipt is stored, its claim is stored in the other ledger, and claim time, consumption time and expiry are in order |
| `LaunchSystem.RecoveredRunNeverSpawns` | src/bpe/inert_orchestration.py:2994-3093 | a run that had to recover its receipt never spawns |
| `LaunchSystem.ReservationsAreAnchored` | src/bpe/inert_orchestration.py:2976-3118 | in every reachable state each launch reservation has its claim receipt in the claim ledger |
| `LaunchSystem.UndisturbedRunSpawns` | src/bpe/inert_orchestration.py:2976-3118 | the protocol is not vacuous: from any invariant state, an authenticated run with fresh identities and an open window does spawn, with exactly the three history entries |
| `Wait.Window.Ensure` | src/bpe/inert_orchestration.py:1699-1705 | the cleanup deadline is fixed once, at the earlier of the overall deadline and the reading plus the timeout, and never moves again |
| `Wait.Machine.Kill` | src/bpe/inert_orchestration.py:1675-1682 | a signal may only be sent right after a wait that found the launcher running, with no earlier wait having reaped or lost it |
| `Wait.WaitLauncher` | src/bpe/inert_orchestration.py:1685-1788 | one pass raises exactly when a call raises; signals at most once, only when asked or past the exit deadline, and never leaves a running launcher unsignalled when asked; gives up on a running launcher only past its active deadline; its evidence is true and complete for what happened, including which signal was delivered; error numbers out of range are dropped |
| `Wait.Poll` | src/bpe/inert_orchestration.py:1713-1788 | one turn of the loop keeps all of this |
| `Wait.Decide` | src/bpe/inert_orchestration.py:1763-1788 | what is done about a running launcher: signal, wait on, or give up, each under its exact condition |
| `Wait.Terminate` | src/bpe/inert_orchestration.py:1707-1711 | the deadline is fixed before the signal; if the clock raises nothing is sent |
| `Wait.WaitLauncherResilient` | src/bpe/inert_orchestration.py:1791-1877 | for every kernel behaviour: signals only go to a live own child, over both passes; the evidence never claims what did not happen, and omits nothing unless a call raised; both passes share one deadline below the overall one; no evidence means two calls raised; an orderly exit in time is reported as such without a second pass |
| `Wait.ReapAdopted` | src/bpe/inert_orchestration.py:2234-2256 | children are counted exactly up to 4096; none-remaining is claimed exactly when the kernel said so; the error number is the one its last answer calls for, none if that is out of range; it gives up only on an error, past the deadline or past the bound; children that are all there at once are all taken |
| `Evidence.BuiltCleanupIsValid` | src/bpe/inert_orchestration.py:469-534 | every cleanup record built from a coherent state passes its validator, so completed, not-required and incomplete are classified consistently |
| `Evidence.BuiltCleanupAgrees` | src/bpe/inert_orchestration.py:719-811 | the built result passes the cross-field checks between cleanup and result exactly when no child was reaped without a launcher |
| `Evidence.BuiltOutcomeAgrees` | src/bpe/inert_orchestration.py:813-960 | outcome and failure always agree with the rest of the built result |
| `Evidence.BuilderMeetsValidator` | src/bpe/inert_orchestration.py:2314-2426 | the validator accepts the builder's output if and only if a launcher was created or no child was reaped; success is claimed exactly when nothing failed, the replay succeeded, cleanup completed and both deadlines held |
| `Evidence.BuildKeepsCoherent` | src/bpe/inert_orchestration.py:2314-2426 | a failure that the builder adds keeps the state coherent, so a second build is judged alike |
| `Evidence.FinishKeepsCoherent` | src/bpe/inert_orchestration.py:2460-2521 | the two clock readings around the build keep coherence, never replace a primary failure, and set the deadline flags to the last reading's verdict |
| `Evidence.FirstBuildValid` | src/bpe/inert_orchestration.py:2460-2500 | the first of the two builds already validates exactly when no child was reaped without a launcher |
| `Evidence.FinishedConcludes` | src/bpe/inert_orchestration.py:2460-2521 | what the final result says about the state it was built from, success and validity each with an if and only if |
| `Evidence.OrphanBreaksEvidence` | src/bpe/inert_orchestration.py:797-805 | a concrete state whose evidence the validator rejects: a child reaped although retention failed (`Lifecycle.OrphanRun` is a run that ends so) |
| `Lifecycle.Collect` | src/bpe/inert_orchestration.py:1534-1672 | end of file is reported if and only if the socket delivers whole records, no more than the protocol allows, and then ends before the deadline, and the records are those delivered; end of file and failure exclude each other |
| `Lifecycle.SpawnAndCollect` | src/bpe/inert_orchestration.py:1880-2145 | the run record is coherent and true of the waits and signals it caused; no failure means reaped and never signalled and nothing raised; and with nothing in the way the run is flawless |
| `Lifecycle.CollectAndWait` | src/bpe/inert_orchestration.py:1954-2112 | the same from the moment the process exists |
| `Lifecycle.ResultState.Fail` | src/bpe/inert_orchestration.py:1072-1084 | only the first failure is kept |
| `Lifecycle.ResultState.BuildResult` | src/bpe/inert_orchestration.py:2314-2426 | the method builds the reference result and leaves the failure that it reports |
| `Lifecycle.ResultState.BuildBetweenReadings` | src/bpe/inert_orchestration.py:2460-2521 | the clock is read around the build and a build overtaken by a deadline is redone; an invalid result raises, which happens exactly for children reaped without a launcher |
| `Lifecycle.ResultState.FinishBeforeDeadline` | src/bpe/inert_orchestration.py:2460-2521 | evidence is returned exactly when it validates and no clock reading raised, and it concludes the recorded facts as of the last reading |
| `Lifecycle.ResultState.Retain` | src/bpe/inert_orchestration.py:2545-2569 | retention hands over a fresh handle to a leaf that is now there, if and only if its name was free, the devices agree, every step worked and no other entry was met; otherwise a leaf left behind is always flagged uncertain: the flag never misses a residual leaf |
| `Lifecycle.ResultState.NoteRetention` | src/bpe/inert_orchestration.py:2555-2569 | a failed retention is uncertain exactly when the cgroup component reports incomplete cleanup |
| `Lifecycle.ResultState.HandOff` | src/bpe/inert_orchestration.py:2571-2595 | handoff happens exactly without failure, and the failure is the exact one for a raised clock, a late start or the component's answer |
| `Lifecycle.ResultState.LaunchAndObserve` | src/bpe/inert_orchestration.py:2597-2631 | run, replayed observation and failure fit together; without a failure every call returned and the replay was accepted |
| `Lifecycle.ResultState.Observe` | src/bpe/inert_orchestration.py:2605-2631 | the run's own failure comes first, then a failed build, then a replay that is not accepted; the observation is the replay of exactly the run's records |
| `Lifecycle.ResultState.CleanUp` | src/bpe/inert_orchestration.py:2661-2766 | the finally block: a primary failure is never replaced, every resource is recorded as its one attempt went, a completed cgroup cleanup means the leaf's name is gone, and no other name was touched, the wildcard reaper runs only once the launcher is reaped or never existed, and the children recorded are those the history counts |
| `Lifecycle.ResultState.SetDeadline` | src/bpe/inert_orchestration.py:2662-2675 | cleanup uses the deadline the wait fixed, or one fixed now, or the overall deadline if the clock raises |
| `Lifecycle.ResultState.CleanCgroup` | src/bpe/inert_orchestration.py:2685-2699 | the leaf is cleaned once, within what is left until the deadline; completed means its name is gone; no other name is touched; a leaf still there is recorded as possibly remaining or as an unexpected error; a cleanup without trouble that fits the time completes with the exact duration |
| `Lifecycle.Remaining` | src/bpe/inert_orchestration.py:2429-2434 | the timeout handed to the cgroup component is valid, and never cuts off whole milliseconds that are left below the bound |
| `Lifecycle.ResultState.ReapChildren` | src/bpe/inert_orchestration.py:2701-2733 | children are reaped only when the launcher's fate is settled; the count is the history's, and zero if the reaper raised; anything short of none-remaining is blamed with the right component |
| `Lifecycle.ResultState.Release` | src/bpe/inert_orchestration.py:2735-2766 | handle, host guard and descriptors: the guard is restored exactly when no child remains and restoring worked; what is blamed first is exact |
| `Lifecycle.ResultState.CloseArtifact` | src/bpe/inert_orchestration.py:2437-2457 | the handle counts as closed exactly when closing worked and it reports closed |
| `Lifecycle.LaunchIsCoherent` | src/bpe/inert_orchestration.py:2597-2631 | the failure recorded after a run fits the run and its replay |
| `Lifecycle.ResultState.CleanedHolds` | src/bpe/inert_orchestration.py:2661-2766 | cleanup turns a coherent launch record into a coherent state that is true of the history, whatever its steps answered; a state that wins needs every collaborator to have done its part |
| `Lifecycle.ResultState.SmoothWins` | src/bpe/inert_orchestration.py:2661-2766 | the converse: with nothing in the way the state wins |
| `Lifecycle.EvidenceAnswers` | src/bpe/inert_orchestration.py:2768-2777 | the result is valid and accounts for the history of waits, signals and reaps, its count of children included |
| `Lifecycle.LaunchSeen` | src/bpe/inert_orchestration.py:2768-2777 | whether there was a launcher, and whether children were reaped without one, can be read off the history |
| `Lifecycle.RootIsAccounted` | src/bpe/inert_orchestration.py:2768-2777 | cleanup reported as completed or not required means the leaf's name in the delegated root is as before; a leaf left behind is reported as retained or as an uncertain retention |
| `Lifecycle.SuccessMeansExit` | src/bpe/inert_orchestration.py:2768-2777 | a success in the evidence means the launcher exited with 0 by itself and was never signalled |
| `Lifecycle.OrchestrateConsumedAttempt` | src/bpe/inert_orchestration.py:2524-2777 | for every answer of every collaborator: signals stay safe; the evidence is valid, answers for the history and accounts for the leaf in the delegated root; no other name is ever created or removed, whatever else changes there meanwhile; success is claimed only if every collaborator did its part, no call raised and no deadline passed, and is claimed whenever nothing stands in the way; no evidence exactly when children were reaped without a launcher, or only if a call raised |
| `Lifecycle.Attempt` | src/bpe/inert_orchestration.py:2544-2766 | launch phases and cleanup together: the state is coherent, recorded as the history has it, and winning exactly in the two directions above |
| `Lifecycle.LaunchPhases` | src/bpe/inert_orchestration.py:2544-2660 | whatever retention, handoff and launch answer, the record is in order for cleanup and true of the waits, and without failure only if every answer was as wished |
| `Lifecycle.FinalizeConsumedWithoutLaunch` | src/bpe/inert_orchestration.py:2841-2921 | finalisation after an ambiguous or unverified consumption never creates, signals or waits for a launcher, and reports exactly that failure; there is no evidence if and only if a child was reaped, or a clock reading raised |
| `Lifecycle.OrphanRun` | src/bpe/inert_orchestration.py:2841-2921 | a scripted run that ends without evidence although nothing raised: the audit reaps one child |
| `CgroupLeaf.CreateLeaf` | src/bpe/cgroup.py:1052-1150 | creation succeeds if and only if the name was free, the leaf is on the root's device and every step worked; any failure but incomplete cleanup has rolled its name back; no other name is touched |
| `CgroupLeaf.RemoveEmptyLeaf` | src/bpe/cgroup.py:1567-1636 | only the identified leaf is ever removed, although other entries come and go; success means it was there and its name is gone; with no trouble and no other entry met, it succeeds exactly if the leaf was there |
| `CgroupLeaf.CleanupLeafOnce` | src/bpe/cgroup.py:1639-1730 | progress is claimed only when the name is gone; the duration is the rounded-up elapsed time and never above the timeout |
| `CgroupLeaf.AuditRemoval` | src/bpe/cgroup.py:1689-1725 | after the removal: success keeps to the timeout and means that nothing was wrong with the kill or the close; with no trouble the verdict is the clock's alone |
| `CgroupLeaf.FallbackRemoveEmptyLeaf` | src/bpe/cgroup.py:1733-1784 | removal by identity: without trouble it succeeds exactly for a missing or matching entry, and never touches another |
| `CgroupLeaf.CleanupLeaf` | src/bpe/cgroup.py:1787-1819 | no silent leak: any result but incomplete cleanup means the name is gone, incomplete cleanup means something did go wrong or the name denotes something else, and nothing else is ever removed |
| `CgroupLeaf.RetainedLeaf.Cleanup` | src/bpe/cgroup.py:2133-2204 | cleanup runs at most once; each of the two descriptors gets one close attempt; every later call replays the first outcome and touches nothing |
| `CgroupLeaf.RetainedLeaf.CleanupWithTimeout` | src/bpe/cgroup.py:2218-2241 | a timeout out of range is refused without consuming the handle |
| `CgroupLeaf.Retain` | src/bpe/cgroup.py:2271-2400 | a leaf is retained if and only if its name was free, the devices agree, every step worked and no other entry was met; any failure but incomplete cleanup leaves its name as it was; no other name is touched |
| `CgroupLeaf.CallRepeatedly` | src/bpe/cgroup.py:2206-2241 | over every sequence of calls: invalid ones are refused, valid ones all get the first valid one's outcome, one cleanup, two close attempts, nothing but the leaf removed |
| `DispatchLedger.Ledger.AdvanceClock` | src/bpe/dispatch.py:1362-1388 | the durable clock moves exactly when time has not moved back |
| `DispatchLedger.Ledger.ClaimAuthorization` | src/bpe/dispatch.py:1065-1259 | the method is the clock transaction followed by the reference claim transaction, with each refusal leaving exactly what it should |
| `DispatchLedger.CommitKeeps` | src/bpe/dispatch.py:1086-1245 | every claim keeps uniqueness of all eight identities and rooted retry lineages, and only extends the ledger |
| `DispatchLedger.ClaimsExactlyWhen` | src/bpe/dispatch.py:1086-1245 | a verified call is claimed if and only if time, window and construction permit, nothing it uses was used before and its retry parent is there; already-claimed exactly for reuse |
| `DispatchLedger.RunKeeps` | src/bpe/dispatch.py:1065-1259 | the same over every interleaving of transactions of any number of callers |
| `DispatchLedger.NoReuse` | src/bpe/dispatch.py:1150-1182 | over every continuation nothing that shares an id, envelope, nonce, claim identity, receipt or retry parent is claimed again |
| `DispatchLedger.ExpiredForever` | src/bpe/dispatch.py:1103-1115 | expiry is permanent once the durable clock has passed it |
| `DispatchLedger.LateCallShutsOut` | src/bpe/dispatch.py:1096-1115 | a refused late call stores nothing but shuts its authorization out for ever |
| `DispatchLedger.VerifiesExactly` | src/bpe/dispatch.py:1261-1360 | a receipt verifies if and only if it is one of the stored rows |
| `DispatchLedger.ClaimThenVerify` | src/bpe/dispatch.py:1261-1360 | a committed claim verifies after every continuation |
| `DispatchLedger.LineageIsAChain` | src/bpe/dispatch.py:1183-1201 | from any row the parents climb one retry index at a time down to an original with the same binding |
| `DispatchLedger.LineagesAreLinear` | src/bpe/dispatch.py:1150-1201 | two rows with the same origin and the same retry index are the same row: retries never branch |
| `DispatchLedger.ReachableLineagesAreLinear` | src/bpe/dispatch.py:1150-1201 | hence in every reachable ledger |
| `Elf.ValidateSegments` | src/bpe/inert_artifact.py:618-699 | the single pass over the program headers accepts if and only if every header and all pairs of load segments satisfy the rules, and collects the segments of each kind |
| `Elf.AdjacentSuffices` | src/bpe/inert_artifact.py:669-676 | comparing each load segment with the previous one only is enough to order all of them |
| `Elf.ScanDynamic` | src/bpe/inert_artifact.py:741-768 | the early-exit scan accepts if and only if a null entry ends a prefix without forbidden tags holding each flag entry exactly once with its required bits |
| `Elf.ValidateStaticPie` | src/bpe/inert_artifact.py:567-768 | acceptance is exactly the declarative definition of the static-PIE shape |
| `Elf.LoadsAreDisjoint` | src/bpe/inert_artifact.py:662-676 | in an accepted file any two load segments are ordered and disjoint in file and memory |
| `Elf.LoadsAreInBounds` | src/bpe/inert_artifact.py:637-650 | every load segment lies inside the file and the address space, and no address belongs to two |
| `Elf.NoAddressIsWritableAndExecutable` | src/bpe/inert_artifact.py:662-668 | no address is both writable and executable, across segments |
| `Elf.EntryIsInOneSegment` | src/bpe/inert_artifact.py:716-723 | the entry point lies in exactly one load segment, which is executable and not writable |
| `Elf.Find` | src/bpe/inert_artifact.py:785-796 | the search returns the first occurrence at or after a position, or none exists |
| `Elf.FindUnique` | src/bpe/inert_artifact.py:785-796 | a marker is accepted exactly if it occurs once, overlaps included |
| `Elf.CollectRanges` | src/bpe/inert_artifact.py:797-812 | the second header scan yields the file ranges of the load segments |
| `Elf.AcceptedScanSeesLoads` | src/bpe/inert_artifact.py:771-826 | on an accepted file the second scan, driven by header fields, sees exactly the segments the first validated |
| `Elf.MarkerIsLoaded` | src/bpe/inert_artifact.py:813-822 | a range the second scan found lies inside one validated load segment |
| `Elf.RequireEmbeddedIdentity` | src/bpe/inert_artifact.py:771-826 | accepted if and only if each identity string occurs once and lies inside one load range |
| `Elf.IdentityIsLoaded` | src/bpe/inert_artifact.py:771-826 | in a file passing both checks identifier and digest each occur once, inside a validated load segment |
| `CommentScanner.StripComments` | src/bpe/corpus.py:701-738 | the index-and-quote loop computes the reference scanner on every text, rejections included |
| `CommentScanner.ScanKeepsPieces` | src/bpe/corpus.py:701-738 | the scan is meaning-preserving: the text splits into literals, comments and plain characters, and the output is the same pieces with each comment replaced by its separator; literals come through unchanged |
| `CommentScanner.OutputPieces` | src/bpe/corpus.py:701-738 | the output splits into exactly those pieces again: joining never creates a new comment or literal |
| `CommentScanner.ScanIsIdempotent` | src/bpe/corpus.py:701-738 | scanning twice is scanning once |
| `CommentScanner.StableExactlyWithoutSplice` | src/bpe/corpus.py:699-738 | the whole function, splices included, gives a stable output if and only if the pieces of its source leave no splice: no literal holds one, and no backslash stands right before a newline, a line comment, or a carriage return followed by one of these |
| `CommentScanner.SpliceComesFromPieces` | src/bpe/corpus.py:699-738 | the output holds a splice exactly when the pieces of the source leave one |
| `CommentScanner.SpliceCanReappear` | src/bpe/corpus.py:700-700 | a concrete source with nested splices on which it is not stable |
| `CommentScanner.CommentCanSplice` | src/bpe/corpus.py:720-726 | a concrete source without any splice on which it is not stable: a line comment becomes the newline after a backslash |
| `CommentScanner.StripNeverGrows` | src/bpe/corpus.py:701-738 | the output is never longer than the input |
| `PassAtK.EstimateCountsSubsets` | src/bpe/aggregate.py:29-38 | the estimate is exactly the fraction of k-element sample sets that contain a success |
| `PassAtK.CountSampleSets` | src/bpe/aggregate.py:29-38 | there are C(n, k) sample sets of size k |
| `PassAtK.CountHittingSets` | src/bpe/aggregate.py:29-38 | those containing a success number C(n, k) - C(n - c, k) |
| `PassAtK.ChooseIsFactorialQuotient` | src/bpe/aggregate.py:29-38 | the binomial used agrees with the factorial formula |
| `PassAtK.EstimateBounds` | src/bpe/aggregate.py:29-38 | defined exactly for 0 <= c <= n and 1 <= k <= n, always in [0, 1], and 1 exactly when failures are fewer than k |
| `PassAtK.EstimateMonotoneInSuccesses` | src/bpe/aggregate.py:29-38 | never falls with more successes |
| `PassAtK.EstimateMonotoneInK` | src/bpe/aggregate.py:29-38 | never falls with more draws, for any two numbers of draws |
| `Scoring.PercentileBounds` | src/bpe/aggregate.py:52-62 | percentiles stay inside any bounds of the values and are monotone in the fraction |
| `Scoring.InterpolateBetween` | src/bpe/aggregate.py:52-62 | an interpolated value lies between its two neighbours in sorted order |
| `Scoring.GroupScores` | src/bpe/aggregate.py:118-126 | grouping lists every slice once and keeps exactly its scores, in order |
| `Scoring.SliceScores` | src/bpe/aggregate.py:118-133 | one slice per name, in the order of the names, with the count and mean of exactly its tasks |
| `Scoring.SlicesConserveHeadline` | src/bpe/aggregate.py:118-133 | conservation: slice scores weighted by task counts give the headline score back |
| `Scoring.SeedsConserveHeadline` | src/bpe/aggregate.py:520-552 | conservation: the mean of the per-seed scores is the headline score |
| `Scoring.StratumMean` | src/bpe/aggregate.py:89-107 | the mean exists exactly if a cluster of the stratum and some seed have positive weight; then the accumulated quotient is the cluster- and seed-weighted mean and lies in [0, 1] |
| `Scoring.Replicate` | src/bpe/aggregate.py:84-113 | for all non-negative weights one replicate exists exactly if some seed, and in every stratum some cluster, has a positive weight; it is the task-count-weighted mean of the stratum means, in [0, 1] |
| `Scoring.BootstrapInterval` | src/bpe/aggregate.py:65-115 | the interval exists exactly if something is drawn and every draw has a replicate; it consists of the 2.5 and 97.5 percentiles of the replicates, ordered and inside [0, 1] |
| `Scoring.UniformDrawGivesHeadline` | src/bpe/aggregate.py:65-115 | equal positive weights resample nothing: such a replicate exists and is the headline score, however the tasks are stratified |
| `SampleGrid.CheckRecords` | src/bpe/aggregate.py:270-347 | the record loop with its running sets and maps accepts if and only if every record belongs and all pairs are compatible |
| `SampleGrid.ValidateMembership` | src/bpe/aggregate.py:255-356 | accepted exactly when records belong, are pairwise compatible, and every episode is a linked chain of turns |
| `SampleGrid.ChainExact` | src/bpe/aggregate.py:349-356 | sorting by turn and checking neighbours is the same as: every turn above zero has its parent one turn below |
| `SampleGrid.GroupAttempts` | src/bpe/aggregate.py:403-405 | grouping yields exactly the records of each task and seed |
| `SampleGrid.ScoreAttempts` | src/bpe/aggregate.py:413-435 | a cell's score is the estimate over its samples, or a rejection exactly for an incomplete cell |
| `SampleGrid.TaskScores` | src/bpe/aggregate.py:396-437 | the table is defined exactly if every cell has a score (and there are seeds to average over); it then holds every cell's score, in [0, 1], and for every task the mean over the seeds |
| `SampleGrid.TableConservesHeadline` | src/bpe/aggregate.py:505-552 | conservation for the returned table: its seed scores averaged, and its slice scores weighted by task counts, both give its headline score |
| `SampleGrid.UniformDrawGivesTableHeadline` | src/bpe/aggregate.py:65-115 | equal positive bootstrap weights reproduce the headline score of a returned table |
| `SampleGrid.CellOkExactly` | src/bpe/aggregate.py:415-431 | the sorted-list comparison accepts exactly the cells that hold every sample index once and are comparable |
| `SampleGrid.GridIsComplete` | src/bpe/aggregate.py:255-437 | membership and cell checks together: every task, seed and sample index has exactly one first-turn record and there are no others |
| `CorpusAudit.Audit` | src/bpe/corpus.py:851-1202 | the report validates, passes if and only if the corpora are clean (identities and contents unique, contamination, lineage and clone groups and repository families apart, no denied family, all sources scannable, every pair dissimilar), and then holds the full comparison matrix |
| `CorpusAudit.DuplicateIssues` | src/bpe/corpus.py:888-913 | no issue exactly if all keys are distinct |
| `CorpusAudit.CrossIssues` | src/bpe/corpus.py:822-848 | no issue exactly if the two splits share no key |
| `CorpusAudit.ScanSources` | src/bpe/corpus.py:1006-1055 | no issue exactly if every source can be scanned, and then every source has its own scan |
| `CorpusAudit.TokenIssues` | src/bpe/corpus.py:1057-1075 | no issue exactly if equal token sequences mean equal content |
| `CorpusAudit.ComparePairs` | src/bpe/corpus.py:1097-1159 | the loops produce the full matrix of training against evaluation sources, none skipped or repeated |
| `CorpusAudit.BlockingExactly` | src/bpe/corpus.py:1106-1125 | a comparison is non-blocking exactly when content and tokens differ and both measures are below their thresholds |
| `CorpusAudit.JaccardBelowContainment` | src/bpe/corpus.py:1106-1112 | for non-empty n-gram sets 0 <= Jaccard <= containment <= 1 |
| `CorpusAudit.DenominatorsArePositive` | src/bpe/corpus.py:1106-1112 | neither quotient divides by zero |
| `CorpusAudit.CleanPair` | src/bpe/corpus.py:851-1202 | in clean corpora every training and evaluation source differ in content, tokens, lineage, clone and contamination group and family, and were compared |
| `CorpusAudit.CleanMeansUnblocked` | src/bpe/corpus.py:381-410 | no comparison of clean corpora blocks |
| `Base64Url.StrictDecodingIsExact` | src/bpe/dispatch.py:484-501 | decoding a text to given bytes succeeds if and only if the text is the one canonical unpadded encoding of exactly that many bytes |
| `Base64Url.DecodeUndoesEncode` | src/bpe/dispatch.py:484-501 | round trip from bytes |
| `Base64Url.EncodeUndoesDecode` | src/bpe/dispatch.py:484-501 | round trip from canonical sextets |
| `Base64Url.AcceptedTexts` | src/bpe/dispatch.py:484-501 | accepted texts are exactly those of the right length whose unused bits are zero |
| `Base64Url.KeyPatternIsExact` | src/bpe/dispatch.py:34-39 | the key pattern matches exactly the texts that strictly decode to 32 bytes |
| `Base64Url.SignaturePatternIsExact` | src/bpe/dispatch.py:34-39 | the signature pattern matches exactly the texts that strictly decode to 64 bytes |
| `RootIsolation.IsAncestor` | src/bpe/ingress.py:630-666 | the bounded walk answers correctly whenever it answers, and answers whenever nothing fails and the depth bound is not reached |
| `RootIsolation.DisjointExactly` | src/bpe/ingress.py:669-690 | two roots share no directory if and only if neither is at or below the other |
| `RootIsolation.RequireDisjointRoots` | src/bpe/ingress.py:669-690 | acceptance implies disjoint trees, and within the depth bound is exactly that |

## Left out

- Assumptions about the kernel: readings of the monotonic clock never go back, a wait never reports a pid as running or exited once it was reaped or lost, pids are distinct and in range, a new directory is not its own parent, a failing system call sets an error number of at least one, and a polling loop meets its deadline at the latest when its script ends.
- Cryptography: signatures, SHA-256 and nonces are parameters or opaque values.
- SQLite itself: pragmas, schema inspection, file permissions, locking and input/output errors; a transaction is one atomic step.
- Admission of policies and expectations: field-by-field equality of policies, receipts and artifacts.
- Ingress staging and publication, job loading, grading, replay anchors and host qualification.
- Canonical JSON, the command line, schemas and model classes that only check single fields.
- The artifact handle: sealed memory files, stable reads and descriptor duplication.
- Tokenisation by regular expression and normalisation of repository identities.
- Sleeping, and interrupts that arrive between two bookkeeping assignments.
- Eligibility of turn-zero records by replay anchor; the records reaching the scores are a parameter.
- Floating point: scores, percentiles and similarities are exact reals, so rounding is not captured.
- Launcher.Process.ValidateAndGreet: which of the descriptor and cgroup file checks fails inside one group is one answer, with the diagnosis the group reports.
- Launcher.Process.CloseOwned: the closes are one answer, so which descriptor failed is not modelled.
- Lifecycle.SpawnAndCollect: the setup before the spawn is one answer, and the error number that goes with a failure found by the wait's own recovery is not modelled.
- Lifecycle.ResultState.HandOff: the component's revalidation before the descriptor is duplicated is one answer.
- CgroupLeaf.CleanupLeaf: other entries of the delegated root change arbitrarily between kernel calls, but no one else creates or removes the leaf's own random name while a call runs.
- CorpusAudit.Audit: issues are codes; their texts, references and sorted order are not modelled.
- Scoring.BootstrapInterval: weights are arbitrary non-negative reals instead of exponential draws.
- DispatchLedger.Ledger.ClaimAuthorization: the handler for a constraint violation at the insert is not modelled; the preceding query covers the same columns.
- RootIsolation.IsAncestor: the descriptors opened and closed on the way up are not modelled.
