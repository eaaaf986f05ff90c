/**
  Terminal evidence of one consumed launch attempt: the cross-field validators of the cleanup
  record and of the whole result, and the builder whose output they judge.
 */
module Evidence {
  import opened Common
  import Native = NativeProtocol
  import C = CgroupLeaf

  datatype Stage =
    | AttemptFinalization | CgroupRetention | CgroupHandoff | LauncherSetup | LauncherSpawn
    | TranscriptCollection | LauncherWait | TranscriptValidation | Cleanup

  datatype Reason =
    | AttemptConsumptionAmbiguous | AttemptReceiptVerificationFailed | CgroupRetentionFailed
    | CgroupHandoffFailed | LauncherSetupFailed | LauncherSpawnFailed | TranscriptCollectionFailed
    | ControlProtocolFailed | LauncherWaitFailed | NativeTranscriptRejected | CleanupIncomplete
    | DeadlineExceeded | UnexpectedError

  /** Which part failed; `Cgroup` passes on the reason of the cgroup component. */
  datatype Component =
    | Cgroup(reason: C.Reason) | UnexpectedCgroupException | LeafDescriptorHandoffFailed
    | UnexpectedCgroupHandoffException | UnexpectedLauncherSetupException | UnexpectedPostSpawnException
    | FixtureDeadline | RecvmsgFailed | PeerHupPollFailed | AncillaryDescriptorCloseFailed | InvalidControlRecord
    | PosixSpawnFailed | LauncherSetupIoFailed | LauncherSetupException | PostSpawnIoFailed | PostSpawnException
    | ExactWaitException | ExactWaitIncomplete | ExactWaitRecovered | LauncherExitDeadline
    | NativeObservationBuildFailed | NativeReplayRejected | CleanupClockFailed
    | AdoptedDescendantReapIncomplete | AdoptedDescendantReapFailed | LauncherDispositionUnresolved
    | ArtifactHandleCloseFailed | SubreaperRestoreFailed | ArtifactDescriptorCloseFailed
    | LeafDescriptorCloseFailed | LocalCleanupIncomplete | TotalDeadline | CleanupDeadline
    | RecoveredAfterAmbiguousConsumption | RecoveredAfterReceiptVerificationFailure
    | UnexpectedPrelaunchChild | PrelaunchChildAuditFailed | UnexpectedComponentError

  datatype Failure = Failure(stage: Stage, reason: Reason, component: Component, errno: Option<ErrorNumber>)

  datatype LeafIdentity = LeafIdentity(rootDevice: nat, rootInode: nat, leafDevice: nat, leafInode: nat)

  datatype NativeRun = NativeRun(
    pid: Option<nat>, returncode: Option<int>, records: seq<Native.Record>, eof: bool, failure: Option<Failure>,
    reaped: bool, controlFinalized: bool, stagingFinalized: bool,
    attempted: bool, signalSent: bool, killErrno: Option<ErrorNumber>, deadline: Option<int>)

  datatype Replay = Accepted(transcript: Native.Transcript) | RejectedReplay | NotReplayable

  datatype Observation = Observation(
    pid: nat, returncode: Option<int>, eof: bool, records: seq<Native.Record>, replay: Replay)

  datatype Status = Completed | NotRequired | Incomplete

  datatype CleanupEvidence = CleanupEvidence(
    status: Status, launcherReaped: bool, attempted: bool, signalSent: bool, killErrno: Option<ErrorNumber>,
    controlFinalized: bool, stagingFinalized: bool, execFinalized: bool, leafFdFinalized: bool,
    cgroupAttempted: bool, cgroupCompleted: bool, duration: Option<nat>, failureReason: Option<Component>,
    retentionUncertain: bool, adopted: nat, noChildren: bool, subreaperRestored: bool, artifactClosed: bool)

  datatype Outcome = FixtureSucceeded | LauncherFailed | OrchestratorFailed

  datatype Result = Result(
    outcome: Outcome, retained: bool, leaf: Option<LeafIdentity>, handoff: bool, launcherCreated: bool,
    execObserved: bool, childObserved: bool, observation: Option<Observation>, failure: Option<Failure>,
    cleanupObserved: bool, totalObserved: bool, cleanup: CleanupEvidence)

  const MAX_CLEANUP_MS := 5000

  // ---------------------------------------------------------------------------------------
  // Validators

  predicate CommonComplete(c: CleanupEvidence) {
    && c.controlFinalized && c.stagingFinalized && c.execFinalized && c.leafFdFinalized
    && c.noChildren && c.subreaperRestored && c.artifactClosed && !c.retentionUncertain
  }

  predicate CleanupValid(c: CleanupEvidence) {
    && (c.signalSent ==> c.attempted)
    && (c.killErrno.Some? ==> c.attempted && !c.signalSent)
    && (c.cgroupCompleted ==> c.cgroupAttempted && c.duration.Some? && c.failureReason.None?)
    && (!c.cgroupCompleted ==> c.duration.None?)
    && (c.duration.Some? ==> c.duration.value <= MAX_CLEANUP_MS)
    && (c.cgroupAttempted && !c.cgroupCompleted ==> c.failureReason.Some?)
    && (c.failureReason.Some? ==> c.cgroupAttempted)
    && (c.retentionUncertain ==> !c.cgroupAttempted)
    && (c.subreaperRestored ==> c.noChildren)
    && c.adopted <= MAX_ADOPTED
    && (match c.status
        case NotRequired => !c.launcherReaped && !c.cgroupAttempted && !c.cgroupCompleted && CommonComplete(c)
        case Completed => c.cgroupCompleted && CommonComplete(c)
        case Incomplete => !(CommonComplete(c) && (c.cgroupCompleted || !c.cgroupAttempted)))
  }

  function ReplayOf(pid: nat, returncode: Option<int>, eof: bool, records: seq<Native.Record>): Replay {
    if returncode.None? then NotReplayable
    else
      var parsed := Native.Parse(records, returncode.value, eof, pid);
      if parsed.Ok? then Accepted(parsed.value) else RejectedReplay
  }

  /** The replay recorded in an observation is what replaying its raw records gives. */
  predicate ObservationValid(o: Observation) {
    o.replay == ReplayOf(o.pid, o.returncode, o.eof, o.records)
  }

  predicate Allowed(stage: Stage, reason: Reason) {
    match stage
    case AttemptFinalization => reason in {AttemptConsumptionAmbiguous, AttemptReceiptVerificationFailed}
    case CgroupRetention => reason in {CgroupRetentionFailed, UnexpectedError}
    case CgroupHandoff => reason in {CgroupHandoffFailed, DeadlineExceeded}
    case LauncherSetup => reason in {LauncherSetupFailed, DeadlineExceeded, UnexpectedError}
    case LauncherSpawn => reason == LauncherSpawnFailed
    case TranscriptCollection => reason in {DeadlineExceeded, TranscriptCollectionFailed, ControlProtocolFailed}
    case LauncherWait => reason in {LauncherWaitFailed, DeadlineExceeded, UnexpectedError}
    case TranscriptValidation => reason in {NativeTranscriptRejected, UnexpectedError}
    case Cleanup => reason in {CleanupIncomplete, DeadlineExceeded}
  }

  predicate ReplayAccepted(o: Option<Observation>) {
    o.Some? && o.value.replay.Accepted?
  }

  predicate LeafValid(r: Result) {
    && (r.retained <==> r.leaf.Some?)
    && (r.leaf.Some? ==> r.leaf.value.rootDevice == r.leaf.value.leafDevice
                         && r.leaf.value.rootInode != r.leaf.value.leafInode)
    && (r.handoff ==> r.retained)
    && (r.observation.Some? ==> r.launcherCreated && ObservationValid(r.observation.value))
    && (r.launcherCreated ==> r.retained && r.handoff)
    && (r.execObserved <==> ReplayAccepted(r.observation))
    && (r.childObserved <==> ReplayAccepted(r.observation) && r.observation.value.replay.transcript.childPid.Some?)
  }

  predicate Uncertain(f: Option<Failure>) {
    f.Some? && f.value.stage == CgroupRetention && f.value.reason == CgroupRetentionFailed
    && f.value.component == Cgroup(C.CleanupIncomplete)
  }

  predicate CleanupAgrees(r: Result) {
    var c := r.cleanup;
    && (r.retained ==> c.cgroupAttempted && !c.retentionUncertain)
    && (!r.retained ==> !c.cgroupAttempted && !c.cgroupCompleted && c.duration.None? && c.failureReason.None?)
    && (c.status == NotRequired ==> !r.retained && !r.launcherCreated && !c.retentionUncertain)
    && (r.cleanupObserved ==> r.totalObserved)
    && (c.retentionUncertain <==> Uncertain(r.failure))
    && (Uncertain(r.failure) ==> c.status == Incomplete)
    && (r.launcherCreated ==>
          && c.status != NotRequired
          && (c.status == Completed ==> c.launcherReaped)
          && (r.observation.Some? ==> (r.observation.value.returncode.Some? <==> c.launcherReaped)))
    && (!r.launcherCreated ==>
          !c.launcherReaped && !c.attempted && !c.signalSent && c.killErrno.None? && c.adopted == 0)
    && (r.failure.Some? && r.failure.value.stage == LauncherWait && r.failure.value.reason == LauncherWaitFailed
        ==> !c.launcherReaped)
  }

  predicate CleanupComplete(r: Result) {
    && r.cleanup.status in {Completed, NotRequired}
    && (r.launcherCreated ==> r.cleanup.launcherReaped)
    && (r.retained ==> r.cleanup.cgroupCompleted)
  }

  predicate OutcomeAgrees(r: Result) {
    if r.outcome == OrchestratorFailed then r.failure.Some?
    else
      && ReplayAccepted(r.observation)
      && (r.observation.value.replay.transcript.succeeded <==> r.outcome == FixtureSucceeded)
      && CleanupComplete(r) && r.retained && r.handoff && r.launcherCreated
      && r.cleanupObserved && r.totalObserved && r.failure.None?
  }

  predicate FailureAgrees(r: Result) {
    r.failure.Some? ==>
      var (stage, reason) := (r.failure.value.stage, r.failure.value.reason);
      && Allowed(stage, reason)
      && (stage in {AttemptFinalization, CgroupRetention} ==> !r.retained && !r.launcherCreated)
      && (stage == CgroupHandoff ==> r.retained && !r.handoff && !r.launcherCreated)
      && (stage in {LauncherSetup, LauncherSpawn} ==> r.retained && r.handoff && !r.launcherCreated)
      && (stage in {TranscriptCollection, LauncherWait, TranscriptValidation} ==> r.launcherCreated)
      && (stage == TranscriptValidation && reason == NativeTranscriptRejected
          ==> r.observation.Some? && r.observation.value.replay.RejectedReplay?)
      && (stage == TranscriptCollection ==> !ReplayAccepted(r.observation))
      && (stage == Cleanup ==> r.retained && r.handoff && r.launcherCreated && ReplayAccepted(r.observation))
      && (stage == Cleanup && reason == CleanupIncomplete ==> r.cleanup.status == Incomplete)
      && (stage == Cleanup && reason == DeadlineExceeded ==> !r.cleanupObserved || !r.totalObserved)
  }

  predicate ResultValid(r: Result) {
    CleanupValid(r.cleanup) && LeafValid(r) && CleanupAgrees(r) && OutcomeAgrees(r) && FailureAgrees(r)
  }

  // ---------------------------------------------------------------------------------------
  // The builder

  /** What the lifecycle has recorded about processes, descriptors and the cgroup leaf. */
  datatype Body = Body(
    leaf: Option<LeafIdentity>, handoff: bool, run: Option<NativeRun>,
    observation: Option<Observation>, execFinalized: bool, leafFdFinalized: bool,
    cgroupAttempted: bool, cgroupCompleted: bool, duration: Option<nat>, failureReason: Option<Component>,
    retentionUncertain: bool, adopted: nat, noChildren: bool, subreaperRestored: bool, artifactClosed: bool)

  /** The result state as a value: the primary failure, the record, the deadline flags. */
  datatype Facts = Facts(failure: Option<Failure>, body: Body, cleanupObserved: bool, totalObserved: bool)

  predicate Created(b: Body) {
    b.run.Some? && b.run.value.pid.Some?
  }

  predicate Reaped(b: Body) {
    b.run.Some? && b.run.value.reaped
  }

  function StatusOf(b: Body): Status {
    var complete :=
      && b.execFinalized && b.leafFdFinalized && b.noChildren && b.subreaperRestored && b.artifactClosed
      && !b.retentionUncertain
      && (b.run.None? || b.run.value.controlFinalized) && (b.run.None? || b.run.value.stagingFinalized)
      && (!Created(b) || Reaped(b));
    if b.leaf.None? && !Created(b) && complete then NotRequired
    else if b.leaf.Some? && b.cgroupCompleted && complete then Completed
    else Incomplete
  }

  function CleanupOf(b: Body): CleanupEvidence {
    CleanupEvidence(
      StatusOf(b), Reaped(b),
      b.run.Some? && b.run.value.attempted, b.run.Some? && b.run.value.signalSent,
      if b.run.Some? then b.run.value.killErrno else None,
      b.run.None? || b.run.value.controlFinalized, b.run.None? || b.run.value.stagingFinalized,
      b.execFinalized, b.leafFdFinalized, b.cgroupAttempted, b.cgroupCompleted, b.duration, b.failureReason,
      b.retentionUncertain, b.adopted, b.noChildren, b.subreaperRestored, b.artifactClosed)
  }

  function OutcomeOf(f: Facts): Outcome {
    if f.failure.None? && StatusOf(f.body) != Incomplete && f.totalObserved && ReplayAccepted(f.body.observation) then
      if f.body.observation.value.replay.transcript.succeeded then FixtureSucceeded else LauncherFailed
    else OrchestratorFailed
  }

  /** The failure the builder leaves behind: the primary one, or one it adds itself. */
  function FailureOf(f: Facts): Option<Failure> {
    if OutcomeOf(f) != OrchestratorFailed || f.failure.Some? then f.failure
    else if !f.totalObserved then Some(Failure(Cleanup, DeadlineExceeded, TotalDeadline, None))
    else Some(Failure(Cleanup, CleanupIncomplete, LocalCleanupIncomplete, None))
  }

  /** The record laid out, with an outcome and a failure already decided. */
  function LaidOut(outcome: Outcome, failure: Option<Failure>, b: Body, cleanupObserved: bool,
                   totalObserved: bool): Result
  {
    var accepted := ReplayAccepted(b.observation);
    Result(outcome, b.leaf.Some?, b.leaf, b.handoff, Created(b), accepted,
           accepted && b.observation.value.replay.transcript.childPid.Some?,
           b.observation, failure, cleanupObserved, totalObserved, CleanupOf(b))
  }

  function Build(f: Facts): Result {
    LaidOut(OutcomeOf(f), FailureOf(f), f.body, f.cleanupObserved, f.totalObserved)
  }

  // ---------------------------------------------------------------------------------------
  // What the lifecycle has to have recorded

  predicate RunCoherent(run: NativeRun) {
    && (run.reaped <==> run.returncode.Some?)
    && (run.signalSent ==> run.attempted)
    && (run.killErrno.Some? ==> run.attempted && !run.signalSent)
    && (run.pid.None? ==> !run.reaped && !run.attempted)
  }

  /** The leaf, if there is one, got its cleanup attempt, with a duration or a reason to show. */
  predicate LeafSettled(
    retained: bool, attempted: bool, completed: bool, duration: Option<nat>, failureReason: Option<Component>)
  {
    && (attempted <==> retained)
    && (completed ==> attempted && duration.Some? && duration.value <= MAX_CLEANUP_MS && failureReason.None?)
    && (!completed ==> duration.None? && (failureReason.Some? <==> attempted))
  }

  predicate CgroupCoherent(b: Body) {
    && (b.leaf.Some? ==> b.leaf.value.rootDevice == b.leaf.value.leafDevice
                         && b.leaf.value.rootInode != b.leaf.value.leafInode)
    && (b.handoff ==> b.leaf.Some?) && (b.run.Some? ==> b.handoff)
    && LeafSettled(b.leaf.Some?, b.cgroupAttempted, b.cgroupCompleted, b.duration, b.failureReason)
    && (b.retentionUncertain ==> b.leaf.None?)
  }

  predicate ObservationCoherent(b: Body) {
    b.observation.Some? ==>
      && Created(b) && ObservationValid(b.observation.value)
      && b.observation.value.returncode == b.run.value.returncode
  }

  predicate BodyCoherent(b: Body) {
    && CgroupCoherent(b) && ObservationCoherent(b)
    && (b.run.Some? ==> RunCoherent(b.run.value))
    && (b.subreaperRestored ==> b.noChildren)
    && (b.noChildren && Created(b) ==> Reaped(b))
    && b.adopted <= MAX_ADOPTED
  }

  /** What a primary failure says about the rest of the record. */
  predicate FailureFits(failure: Failure, b: Body) {
    var (stage, reason) := (failure.stage, failure.reason);
    && Allowed(stage, reason)
    && (stage in {AttemptFinalization, CgroupRetention} ==> b.leaf.None?)
    && (stage == CgroupHandoff ==> b.leaf.Some? && !b.handoff)
    && (stage in {LauncherSetup, LauncherSpawn} ==> b.handoff && !Created(b))
    && (stage in {TranscriptCollection, LauncherWait, TranscriptValidation} ==> Created(b))
    && (stage == LauncherWait && reason == LauncherWaitFailed ==> !Reaped(b))
    && (stage == TranscriptValidation && reason == NativeTranscriptRejected
        ==> b.observation.Some? && b.observation.value.replay.RejectedReplay?)
    && (stage == TranscriptCollection ==> !ReplayAccepted(b.observation))
    && (stage == Cleanup ==> Created(b) && ReplayAccepted(b.observation))
    && (stage == Cleanup && reason == CleanupIncomplete ==> StatusOf(b) == Incomplete)
  }

  predicate FailureCoherent(failure: Option<Failure>, b: Body) {
    && (b.retentionUncertain <==> Uncertain(failure))
    && (failure.None? ==> Created(b) && ReplayAccepted(b.observation))
    && (failure.Some? ==> FailureFits(failure.value, b))
  }

  predicate Coherent(f: Facts) {
    && BodyCoherent(f.body) && FailureCoherent(f.failure, f.body)
    && (f.failure.Some? && f.failure.value.stage == Cleanup && f.failure.value.reason == DeadlineExceeded
        ==> !f.cleanupObserved || !f.totalObserved)
  }

  /** Deadline flags as the finisher sets them: the cleanup deadline never outlives the total
      one, and a missed deadline has been recorded as a failure. */
  predicate DeadlinesCoherent(f: Facts) {
    && (f.cleanupObserved ==> f.totalObserved)
    && (f.failure.None? ==> f.cleanupObserved)
  }

  /** No child was reaped without a launcher. */
  predicate Accountable(b: Body) {
    Created(b) || b.adopted == 0
  }

  // ---------------------------------------------------------------------------------------
  // The builder meets the validators

  lemma BuiltCleanupIsValid(b: Body)
    requires BodyCoherent(b)
    ensures CleanupValid(CleanupOf(b))
  {
  }

  lemma BuiltCleanupAgrees(f: Facts)
    requires Coherent(f) && DeadlinesCoherent(f)
    ensures LeafValid(Build(f)) && (CleanupAgrees(Build(f)) <==> Accountable(f.body))
  {
    hide Allowed, ReplayOf;
  }

  lemma BuiltOutcomeAgrees(f: Facts)
    requires Coherent(f) && DeadlinesCoherent(f)
    ensures OutcomeAgrees(Build(f)) && FailureAgrees(Build(f))
  {
  }

  /** Exactly when the validators accept what the builder made: unless children were reaped
      although no launcher had been created. Success is claimed exactly when nothing failed,
      the replay succeeded, cleanup completed and both deadlines held. */
  lemma BuilderMeetsValidator(f: Facts)
    requires Coherent(f) && DeadlinesCoherent(f)
    ensures ResultValid(Build(f)) <==> Accountable(f.body)
    ensures Build(f).outcome == FixtureSucceeded
            <==> && f.failure.None? && ReplayAccepted(f.body.observation)
                 && f.body.observation.value.replay.transcript.succeeded
                 && StatusOf(f.body) == Completed && f.cleanupObserved && f.totalObserved
  {
    hide Allowed, ReplayOf, CleanupValid, LeafValid, CleanupAgrees, OutcomeAgrees, FailureAgrees;
    BuiltCleanupIsValid(f.body);
    BuiltCleanupAgrees(f);
    BuiltOutcomeAgrees(f);
  }

  /** Building is stable: the failure the builder adds leaves the facts coherent, so a second
      build from them is judged the same way. It adds one only for incomplete cleanup. */
  lemma BuildKeepsCoherent(f: Facts)
    requires Coherent(f) && DeadlinesCoherent(f)
    ensures Coherent(f.(failure := FailureOf(f))) && DeadlinesCoherent(f.(failure := FailureOf(f)))
    ensures f.failure.Some? ==> FailureOf(f) == f.failure
    ensures f.failure.None? && FailureOf(f).Some? ==> StatusOf(f.body) == Incomplete
  {
  }

  // ---------------------------------------------------------------------------------------
  // The two clock readings around the build

  function Observed(f: Facts, now: int, cleanupDeadline: int, overall: int): Facts {
    f.(cleanupObserved := now < cleanupDeadline, totalObserved := now < overall)
  }

  function Failing(f: Facts, failure: Failure): Facts {
    if f.failure.None? then f.(failure := Some(failure)) else f
  }

  function Late(what: Component): Failure {
    Failure(Cleanup, DeadlineExceeded, what, None)
  }

  function BeforeBuild(f: Facts, now: int, cleanupDeadline: int, overall: int): Facts {
    var g := Observed(f, now, cleanupDeadline, overall);
    if !g.cleanupObserved then Failing(g, Late(CleanupDeadline))
    else if !g.totalObserved then Failing(g, Late(TotalDeadline))
    else g
  }

  predicate Overran(f: Facts, completed: int, cleanupDeadline: int, overall: int) {
    (f.cleanupObserved && completed >= cleanupDeadline) || (f.totalObserved && completed >= overall)
  }

  function AfterBuild(f: Facts, completed: int, cleanupDeadline: int, overall: int): Facts {
    var g := Observed(f, completed, cleanupDeadline, overall);
    if !g.cleanupObserved then Failing(g, Late(CleanupDeadline)) else Failing(g, Late(TotalDeadline))
  }

  /** The facts the returned result is built from, given the reading before the first build and
      the one after it. */
  function FinishedFacts(f: Facts, now: int, completed: int, cleanupDeadline: int, overall: int): Facts {
    var first := BeforeBuild(f, now, cleanupDeadline, overall);
    var built := first.(failure := FailureOf(first));
    if Overran(built, completed, cleanupDeadline, overall)
    then AfterBuild(built, completed, cleanupDeadline, overall)
    else first
  }

  /** The first of the two builds is valid exactly when the state is accountable. */
  lemma FirstBuildValid(f: Facts, now: int, cleanupDeadline: int, overall: int)
    requires Coherent(f) && f.cleanupObserved && f.totalObserved && cleanupDeadline <= overall
    ensures ResultValid(Build(BeforeBuild(f, now, cleanupDeadline, overall))) <==> Accountable(f.body)
  {
    hide BodyCoherent, StatusOf, FailureOf, ResultValid, Build;
    BuilderMeetsValidator(BeforeBuild(f, now, cleanupDeadline, overall));
  }

  /** Between two builds time only moves forward, so the second one is judged like the first. */
  lemma FinishKeepsCoherent(f: Facts, now: int, completed: int, cleanupDeadline: int, overall: int)
    requires Coherent(f) && f.cleanupObserved && f.totalObserved && now <= completed && cleanupDeadline <= overall
    ensures var g := FinishedFacts(f, now, completed, cleanupDeadline, overall);
            && Coherent(g) && DeadlinesCoherent(g) && g.body == f.body
            && g.cleanupObserved == (completed < cleanupDeadline) && g.totalObserved == (completed < overall)
            && (f.failure.Some? ==> g.failure == f.failure)
            && (f.failure.None? && g.failure.Some? ==> completed >= cleanupDeadline || StatusOf(f.body) == Incomplete)
  {
    hide BodyCoherent, StatusOf, FailureOf;
    BuildKeepsCoherent(BeforeBuild(f, now, cleanupDeadline, overall));
  }

  lemma FinishedValid(f: Facts, now: int, completed: int, cleanupDeadline: int, overall: int)
    requires Coherent(f) && f.cleanupObserved && f.totalObserved && now <= completed && cleanupDeadline <= overall
    ensures ResultValid(Build(FinishedFacts(f, now, completed, cleanupDeadline, overall))) <==> Accountable(f.body)
  {
    hide Coherent, ResultValid, Build, FinishedFacts;
    FinishKeepsCoherent(f, now, completed, cleanupDeadline, overall);
    BuilderMeetsValidator(FinishedFacts(f, now, completed, cleanupDeadline, overall));
  }

  /** What a returned result says of the facts it was built from, with `t` the last reading. */
  predicate Concludes(f: Facts, t: int, cleanupDeadline: int, overall: int, r: Result) {
    && (ResultValid(r) <==> Accountable(f.body))
    && (r.outcome == FixtureSucceeded <==>
          && f.failure.None? && ReplayAccepted(f.body.observation)
          && f.body.observation.value.replay.transcript.succeeded
          && StatusOf(f.body) == Completed && t < cleanupDeadline && t < overall)
    && (r.cleanupObserved <==> t < cleanupDeadline) && (r.totalObserved <==> t < overall)
    && (f.failure.Some? ==> r.failure == f.failure) && (r.outcome == FixtureSucceeded ==> r.failure.None?)
    && r.retained == f.body.leaf.Some? && (f.failure.Some? ==> r.outcome == OrchestratorFailed)
    && r.launcherCreated == Created(f.body) && r.cleanup == CleanupOf(f.body) && r.observation == f.body.observation
  }

  lemma FinishedConcludes(f: Facts, now: int, completed: int, cleanupDeadline: int, overall: int)
    requires Coherent(f) && f.cleanupObserved && f.totalObserved && now <= completed && cleanupDeadline <= overall
    ensures Concludes(f, completed, cleanupDeadline, overall,
                      Build(FinishedFacts(f, now, completed, cleanupDeadline, overall)))
  {
    hide Coherent, StatusOf, CleanupOf, ResultValid;
    var g := FinishedFacts(f, now, completed, cleanupDeadline, overall);
    FinishKeepsCoherent(f, now, completed, cleanupDeadline, overall);
    BuilderMeetsValidator(g);
    BuildKeepsCoherent(g);
  }

  /** The one way to break the validators: a child is reaped although retention failed and no
      launcher was ever created. */
  lemma OrphanBreaksEvidence()
    ensures var failure := Failure(CgroupRetention, UnexpectedError, UnexpectedCgroupException, None);
            var body := Body(None, false, None, None, true, true, false, false, None, None, false, 1, true, true, true);
            var f := Facts(Some(failure), body, true, true);
            Coherent(f) && DeadlinesCoherent(f) && !ResultValid(Build(f))
  {
  }
}
