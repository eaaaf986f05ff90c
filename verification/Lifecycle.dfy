/**
  One consumed launch attempt from cgroup retention to terminal evidence. Whatever the cgroup
  component, the spawn, the control socket, the clock, the waits and the closes answer, the
  evidence satisfies its validators, and signals and reaping stay confined to own children.
 */
module Lifecycle {
  import opened Common
  import opened Wait
  import Native = NativeProtocol
  import E = Evidence
  import C = CgroupLeaf

  // ---------------------------------------------------------------------------------------
  // Collecting the transcript

  datatype Hup = PeerGone | StillOpen | HupFails(e: Option<int>)

  datatype Receive =
    | RecvTimesOut | RecvFails(e: Option<int>) | RecvRaises
    | Message(payload: seq<Byte>, ancillary: bool, flagsValid: bool, truncated: bool, controlTruncated: bool,
              credentialsVerified: bool, unexpectedAncillary: bool, rightsClosed: bool, hup: Hup)

  datatype Collection = Collection(
    records: seq<Native.Record>, eof: bool, failure: Option<E.Failure>, descriptorsFinalized: bool)

  function RecordOf(message: Receive): Native.Record
    requires message.Message?
  {
    Native.Record(message.payload, message.truncated, message.controlTruncated,
                  message.unexpectedAncillary || !message.credentialsVerified)
  }

  function BrokenOff(
    records: seq<Native.Record>, reason: E.Reason, component: E.Component, errno: Option<ErrorNumber>, finalized: bool):
    Collection
  {
    Collection(records, false, Some(E.Failure(E.TranscriptCollection, reason, component, errno)), finalized)
  }

  /** A whole frame from the launcher itself, with nothing attached that should not be. */
  predicate Whole(message: Receive) {
    && message.Message? && |message.payload| == 64 && message.flagsValid && message.credentialsVerified
    && !message.unexpectedAncillary && message.rightsClosed
  }

  predicate EndOfFile(message: Receive) {
    && message.Message? && message.payload == [] && !message.ancillary && message.flagsValid
    && message.hup.PeerGone?
  }

  /** The socket delivers exactly these records, all whole, and then ends. */
  predicate Received(socket: seq<Receive>, records: seq<Native.Record>) {
    && |records| <= Native.MAX_FRAMES && |records| < |socket| && EndOfFile(socket[|records|])
    && forall i :: 0 <= i < |records| ==> Whole(socket[i]) && records[i] == RecordOf(socket[i])
  }

  lemma ReceivedOnce(socket: seq<Receive>, a: seq<Native.Record>, b: seq<Native.Record>)
    requires Received(socket, a) && Received(socket, b)
    ensures a == b
  {
  }

  lemma NothingReceived(socket: seq<Receive>, n: nat)
    requires n < |socket| && (forall k :: 0 <= k < n ==> Whole(socket[k]))
    requires !EndOfFile(socket[n]) && (Whole(socket[n]) ==> n >= Native.MAX_FRAMES)
    ensures forall records :: !Received(socket, records)
  {
  }

  /** End of file and failure exclude each other. End of file is reported exactly for a socket
      that delivers whole records and then ends, unless time ran out; the records are those
      delivered. `None` means a call raised. */
  method Collect(m: Machine, socket: seq<Receive>, deadline: int) returns (r: Option<Collection>)
    requires m.Valid()
    modifies m`clocks, m`now, m`raised
    ensures m.Valid() && m.now >= old(m.now)
    ensures m.raised == if r.None? then old(m.raised) + 1 else old(m.raised)
    ensures r.Some? ==>
              && (r.value.eof <==> r.value.failure.None?)
              && |r.value.records| <= Native.MAX_FRAMES
              && (r.value.failure.Some? ==> r.value.failure.value.stage == E.TranscriptCollection
                                            && E.Allowed(E.TranscriptCollection, r.value.failure.value.reason))
    ensures r.Some? && r.value.eof ==>
              && Received(socket, r.value.records)
              && r.value.descriptorsFinalized == socket[|r.value.records|].rightsClosed
    ensures r.Some? && r.value.failure.Some? && r.value.failure.value.reason == E.DeadlineExceeded ==>
              m.now >= deadline || RecvTimesOut in socket
    ensures r.Some? && m.now < deadline ==> forall records :: Received(socket, records) ==> r.value.eof
  {
    hide Machine.Valid;
    var records: seq<Native.Record>, finalized := [], true;
    for i := 0 to |socket|
      invariant m.Valid() && m.now >= old(m.now) && m.raised == old(m.raised)
      invariant |records| == i <= Native.MAX_FRAMES && finalized
      invariant forall k :: 0 <= k < i ==> Whole(socket[k]) && records[k] == RecordOf(socket[k])
    {
      var now := m.Now();
      if now.None? {
        return None;
      }
      if now.value >= deadline {
        return Some(BrokenOff(records, E.DeadlineExceeded, E.FixtureDeadline, None, finalized));
      }
      match socket[i]
      case RecvTimesOut =>
        NothingReceived(socket, i);
        return Some(BrokenOff(records, E.DeadlineExceeded, E.FixtureDeadline, None, finalized));
      case RecvFails(e) =>
        NothingReceived(socket, i);
        return Some(BrokenOff(records, E.TranscriptCollectionFailed, E.RecvmsgFailed, Bounded(e), finalized));
      case RecvRaises =>
        m.raised := m.raised + 1;
        return None;
      case Message(payload, ancillary, flagsValid, _, _, credentialsVerified, unexpected, rightsClosed, hup) =>
        var received := m.Now();
        if received.None? {
          return None;
        }
        finalized := rightsClosed && finalized;
        if payload == [] && !ancillary && flagsValid {
          if hup.HupFails? {
            NothingReceived(socket, i);
            return Some(BrokenOff(records, E.TranscriptCollectionFailed, E.PeerHupPollFailed, Bounded(hup.e),
                                  finalized));
          }
          if hup.PeerGone? {
            if received.value >= deadline {
              return Some(BrokenOff(records, E.DeadlineExceeded, E.FixtureDeadline, None, finalized));
            }
            return Some(Collection(records, true, None, finalized));
          }
        }
        var overflow := |records| >= Native.MAX_FRAMES;
        if !overflow {
          records := records + [RecordOf(socket[i])];
        }
        if !flagsValid || !credentialsVerified || unexpected || !rightsClosed || |payload| != 64 || overflow {
          NothingReceived(socket, i);
          return Some(BrokenOff(records, E.ControlProtocolFailed,
                                if !rightsClosed then E.AncillaryDescriptorCloseFailed else E.InvalidControlRecord,
                                None, finalized));
        }
        if received.value >= deadline {
          return Some(BrokenOff(records, E.DeadlineExceeded, E.FixtureDeadline, None, finalized));
        }
    }
    m.raised := m.raised + 1;
    return None;
  }

  // ---------------------------------------------------------------------------------------
  // Spawning

  /** How the attempt to create the launcher process ends. */
  datatype Setup =
    | SetupFails(osError: bool, e: Option<ErrorNumber>)
    | SpawnFails(osError: bool, e: Option<ErrorNumber>)
    | SpawnedAs(pid: nat)

  /** Answers of the calls around one launcher process. */
  datatype Launch = Launch(
    setup: Setup, stagingCloses: bool, socket: seq<Receive>, collectionRaisesOsError: bool, controlCloses: bool)

  datatype Deadlines = Deadlines(fixture: int, overall: int, cleanupTimeout: nat)

  /** The failure that a wait calls for when nothing failed before it. */
  function WaitFailure(
    wait: Option<Wait.Observation>, recovered: bool, afterException: bool): (r: Option<E.Failure>)
    ensures r.Some? ==> r.value.stage == E.LauncherWait && E.Allowed(E.LauncherWait, r.value.reason)
    ensures r.Some? && r.value.reason == E.LauncherWaitFailed <==> wait.None? || !wait.value.reaped
    ensures recovered ==> r.Some?
    ensures !afterException && wait.Some? && wait.value.attempted ==> r.Some?
  {
    if wait.None? then Some(E.Failure(E.LauncherWait, E.LauncherWaitFailed, E.ExactWaitException, None))
    else if !wait.value.reaped then
      Some(E.Failure(E.LauncherWait, E.LauncherWaitFailed, E.ExactWaitIncomplete, wait.value.waitErrno))
    else if !afterException && wait.value.exitDeadlineExceeded then
      Some(E.Failure(E.LauncherWait, E.DeadlineExceeded, E.LauncherExitDeadline, wait.value.killErrno))
    else if recovered then Some(E.Failure(E.LauncherWait, E.UnexpectedError, E.ExactWaitRecovered, None))
    else if !afterException && wait.value.attempted then
      Some(E.Failure(E.LauncherWait, E.DeadlineExceeded, E.LauncherExitDeadline, wait.value.killErrno))
    else None
  }

  function NotSpawned(failure: E.Failure, launch: Launch): E.NativeRun {
    E.NativeRun(None, None, [], false, Some(failure), false, launch.controlCloses, launch.stagingCloses,
                false, false, None, None)
  }

  /** What a run that did create a launcher records, given the failure before the wait, the
      wait's result, and the closes. */
  function RunOf(
    pid: nat, collection: Collection, failure: Option<E.Failure>, wait: Option<Wait.Observation>, recovered: bool,
    afterException: bool, control: bool, staging: bool, deadline: int): E.NativeRun
  {
    E.NativeRun(
      Some(pid), if wait.Some? then wait.value.returncode else None, collection.records, collection.eof,
      if failure.Some? then failure else WaitFailure(wait, recovered, afterException),
      wait.Some? && wait.value.reaped, control, staging,
      wait.Some? && wait.value.attempted, wait.Some? && wait.value.signalSent,
      if wait.Some? then wait.value.killErrno else None, Some(deadline))
  }

  /** What a returned run says about itself and about the events it caused. */
  ghost predicate RunFacts(run: E.NativeRun, events: seq<Event>, overall: int) {
    && E.RunCoherent(run)
    && (run.pid.None? ==>
          events == [] && run.failure.Some? && run.failure.value.stage in {E.LauncherSetup, E.LauncherSpawn})
    && (run.pid.Some? ==> events != [])
    && (run.failure.Some? ==> E.Allowed(run.failure.value.stage, run.failure.value.reason))
    && (run.pid.Some? <==> run.deadline.Some?) && (run.deadline.Some? ==> run.deadline.value <= overall)
    && (run.pid.Some? && run.failure.Some? ==>
          && run.failure.value.stage in {E.TranscriptCollection, E.LauncherWait, E.TranscriptValidation}
          && (run.failure.value.stage == E.TranscriptCollection ==> !run.eof)
          && (run.failure.value.reason == E.LauncherWaitFailed ==> !run.reaped)
          && run.failure.value.reason != E.NativeTranscriptRejected)
    && (run.failure.None? ==> run.reaped && !AnyKill(events))
    && (run.reaped ==> events != [] && events[|events| - 1] == Waited(Exited(run.returncode.value)))
    && WaitEvents(events)
  }

  /** What a returned run took over from the calls around the process. */
  predicate RunTells(run: E.NativeRun, launch: Launch) {
    && (run.pid.Some? ==> launch.setup == SpawnedAs(run.pid.value) && run.controlFinalized == launch.controlCloses)
    && (run.eof ==>
          && Received(launch.socket, run.records)
          && run.stagingFinalized == (launch.stagingCloses && launch.socket[|run.records|].rightsClosed))
  }

  ghost predicate Ends(socket: seq<Receive>) {
    exists records :: Received(socket, records) && socket[|records|].rightsClosed
  }

  /** The process is created, everything it sends arrives whole, and every close succeeds. */
  ghost predicate Smooth(launch: Launch) {
    launch.setup.SpawnedAs? && launch.stagingCloses && launch.controlCloses && Ends(launch.socket)
  }

  predicate Flawless(run: E.NativeRun) {
    && run.failure.None? && run.pid.Some? && run.deadline.Some? && run.eof && run.returncode == Some(0)
    && run.controlFinalized && run.stagingFinalized
  }

  method SpawnAndCollect(m: Machine, launch: Launch, d: Deadlines) returns (run: E.NativeRun)
    requires m.Valid()
    modifies m
    ensures m.Valid() && m.now >= old(m.now) && old(m.log) <= m.log && m.reaps == old(m.reaps)
    ensures m.raised >= old(m.raised) && (run.failure.None? ==> m.raised == old(m.raised))
    ensures RunFacts(run, m.log[|old(m.log)|..], d.overall) && RunTells(run, launch)
    ensures run.deadline.Some? ==> run.deadline.value >= Min(d.overall, old(m.now) + d.cleanupTimeout)
    ensures Smooth(launch) && Orderly(old(m.waits)) && m.raised == old(m.raised) && m.now < d.fixture <= d.overall ==>
              Flawless(run)
  {
    hide Machine.Valid, Orderly, Received;
    var now := m.Now();
    if now.None? {
      run := NotSpawned(E.Failure(E.LauncherSetup, E.LauncherSetupFailed, E.LauncherSetupException, None), launch);
      return;
    }
    if now.value >= d.fixture {
      run := NotSpawned(E.Failure(E.LauncherSetup, E.DeadlineExceeded, E.FixtureDeadline, None), launch);
      return;
    }
    match launch.setup
    case SetupFails(osError, e) =>
      run := NotSpawned(E.Failure(E.LauncherSetup, E.LauncherSetupFailed,
                                  if osError then E.LauncherSetupIoFailed else E.LauncherSetupException, e), launch);
    case SpawnFails(osError, e) =>
      if osError {
        run := NotSpawned(E.Failure(E.LauncherSpawn, E.LauncherSpawnFailed, E.PosixSpawnFailed, e), launch);
      } else {
        run := NotSpawned(E.Failure(E.LauncherSetup, E.LauncherSetupFailed, E.LauncherSetupException, e), launch);
      }
    case SpawnedAs(pid) =>
      run := CollectAndWait(m, launch, pid, d);
  }

  method CollectAndWait(m: Machine, launch: Launch, pid: nat, d: Deadlines) returns (run: E.NativeRun)
    requires m.Valid() && launch.setup == SpawnedAs(pid)
    modifies m
    ensures m.Valid() && m.now >= old(m.now) && old(m.log) <= m.log && m.reaps == old(m.reaps)
    ensures m.raised >= old(m.raised) && (run.failure.None? ==> m.raised == old(m.raised))
    ensures RunFacts(run, m.log[|old(m.log)|..], d.overall) && RunTells(run, launch) && run.pid == Some(pid)
    ensures run.deadline.Some? ==> run.deadline.value >= Min(d.overall, old(m.now) + d.cleanupTimeout)
    ensures Smooth(launch) && Orderly(old(m.waits)) && m.raised == old(m.raised) && m.now < d.fixture <= d.overall ==>
              Flawless(run)
  {
    hide Machine.Valid, Truthful, Complete, Orderly, Received, AnyKill, RunFacts, WaitEvents;
    var window := new Window();
    var collected := Collect(m, launch.socket, d.fixture);
    var afterException := collected.None?;
    var collection, failure;
    if collected.Some? {
      collection, failure := collected.value, collected.value.failure;
    } else {
      collection := Collection([], false, None, true);
      failure := Some(E.Failure(E.TranscriptValidation, E.UnexpectedError,
                                if launch.collectionRaisesOsError then E.PostSpawnIoFailed else E.PostSpawnException,
                                None));
    }
    var wait, recovered :=
      WaitLauncherResilient(m, window, d.fixture, d.overall, d.cleanupTimeout, failure.Some?);
    run := RunOf(pid, collection, failure, wait, recovered, afterException, launch.controlCloses,
                 launch.stagingCloses && collection.descriptorsFinalized, window.deadline.value);
    RunOfFacts(pid, collection, failure, wait, recovered, afterException, run, m.log[|old(m.log)|..], d.overall);
    if collection.eof {
      EndsThere(launch.socket, collection.records);
    }
  }

  lemma EndsThere(socket: seq<Receive>, records: seq<Native.Record>)
    requires Received(socket, records)
    ensures Ends(socket) <==> socket[|records|].rightsClosed
  {
  }

  lemma RunOfFacts(
    pid: nat, collection: Collection, failure: Option<E.Failure>, wait: Option<Wait.Observation>, recovered: bool,
    afterException: bool, run: E.NativeRun, events: seq<Event>, overall: int)
    requires run.deadline.Some? && run.deadline.value <= overall
    requires run == RunOf(pid, collection, failure, wait, recovered, afterException, run.controlFinalized,
                          run.stagingFinalized, run.deadline.value)
    requires failure.None? ==> !afterException && collection.eof
    requires failure.Some? ==>
               && E.Allowed(failure.value.stage, failure.value.reason)
               && (|| (failure.value.stage == E.TranscriptCollection && !collection.eof)
                   || (failure.value.stage == E.TranscriptValidation && failure.value.reason == E.UnexpectedError))
    requires WaitEvents(events) && events != []
    requires wait.Some? ==> Truthful(wait.value, events) && (!recovered ==> Complete(wait.value, events))
    requires wait.None? ==> recovered
    ensures RunFacts(run, events, overall)
  {
  }

  // ---------------------------------------------------------------------------------------
  // The result state

  class ResultState {
    var failure: Option<E.Failure>
    var leaf: Option<E.LeafIdentity>
    var handoff: bool
    var nativeRun: Option<E.NativeRun>
    var observation: Option<E.Observation>
    var execFinalized: bool
    var leafFdFinalized: bool
    var cgroupAttempted: bool
    var cgroupCompleted: bool
    var duration: Option<nat>
    var failureReason: Option<E.Component>
    var retentionUncertain: bool
    var adopted: nat
    var noChildren: bool
    var subreaperRestored: bool
    var artifactClosed: bool
    var cleanupObserved: bool
    var totalObserved: bool

    constructor ()
      ensures Blank()
    {
      failure, leaf, handoff, nativeRun, observation := None, None, false, None, None;
      execFinalized, leafFdFinalized := true, true;
      cgroupAttempted, cgroupCompleted, duration, failureReason, retentionUncertain := false, false, None, None, false;
      adopted, noChildren, subreaperRestored, artifactClosed := 0, false, false, false;
      cleanupObserved, totalObserved := true, true;
    }

    ghost function Facts(): E.Facts
      reads this
    {
      E.Facts(failure, Body(), cleanupObserved, totalObserved)
    }

    function Body(): E.Body
      reads this`leaf, this`handoff, this`nativeRun, this`observation, this`execFinalized, this`leafFdFinalized
      reads this`cgroupAttempted, this`cgroupCompleted, this`duration, this`failureReason, this`retentionUncertain
      reads this`adopted, this`noChildren, this`subreaperRestored, this`artifactClosed
    {
      E.Body(leaf, handoff, nativeRun, observation, execFinalized, leafFdFinalized, cgroupAttempted, cgroupCompleted,
             duration, failureReason, retentionUncertain, adopted, noChildren, subreaperRestored, artifactClosed)
    }

    /** Nothing recorded, field by field. */
    ghost predicate Blank()
      reads this
    {
      && failure.None? && leaf.None? && !handoff && nativeRun.None? && observation.None? && !retentionUncertain
      && !cgroupAttempted && !cgroupCompleted && duration.None? && failureReason.None? && execFinalized
      && leafFdFinalized && adopted == 0 && !noChildren && !subreaperRestored && !artifactClosed
      && cleanupObserved && totalObserved
    }

    /** Only the first failure is kept. */
    method Fail(f: E.Failure)
      modifies this`failure
      ensures failure == if old(failure).None? then Some(f) else old(failure)
    {
      if failure.None? {
        failure := Some(f);
      }
    }

    /** Builds the evidence; the builder may record a failure of its own first. */
    method BuildResult() returns (r: E.Result)
      modifies this`failure
      ensures r == E.Build(old(Facts()))
      ensures failure == E.FailureOf(old(Facts()))
    {
      hide E.LaidOut, E.StatusOf, Body;
      var b := Body();
      var outcome := E.OrchestratorFailed;
      if failure.None? && E.StatusOf(b) != E.Incomplete && totalObserved && E.ReplayAccepted(b.observation) {
        outcome := if b.observation.value.replay.transcript.succeeded then E.FixtureSucceeded else E.LauncherFailed;
      } else if failure.None? {
        if !totalObserved {
          Fail(E.Failure(E.Cleanup, E.DeadlineExceeded, E.TotalDeadline, None));
        } else {
          Fail(E.Failure(E.Cleanup, E.CleanupIncomplete, E.LocalCleanupIncomplete, None));
        }
      }
      return E.LaidOut(outcome, failure, b, cleanupObserved, totalObserved);
    }

    /** Records whether the deadlines still hold at `t`, before the first build. */
    method NoteDeadlines(t: int, cleanupDeadline: int, overall: int)
      modifies this`failure, this`cleanupObserved, this`totalObserved
      ensures Facts() == E.BeforeBuild(old(Facts()), t, cleanupDeadline, overall)
    {
      hide Body;
      cleanupObserved := t < cleanupDeadline;
      totalObserved := t < overall;
      if !cleanupObserved {
        Fail(E.Late(E.CleanupDeadline));
      } else if !totalObserved {
        Fail(E.Late(E.TotalDeadline));
      }
    }

    /** Records at `t` that a deadline passed while building. */
    method NoteOverrun(t: int, cleanupDeadline: int, overall: int)
      modifies this`failure, this`cleanupObserved, this`totalObserved
      ensures Facts() == E.AfterBuild(old(Facts()), t, cleanupDeadline, overall)
    {
      hide Body;
      cleanupObserved := t < cleanupDeadline;
      totalObserved := t < overall;
      if !cleanupObserved {
        Fail(E.Late(E.CleanupDeadline));
      } else {
        Fail(E.Late(E.TotalDeadline));
      }
    }

    /** Reads the clock before and after building, and builds again if a deadline passed in
        between. The result type validates itself: an invalid result raises. `None` means that
        this or the clock raised. */
    method BuildBetweenReadings(m: Machine, cleanupDeadline: int, overall: int)
      returns (r: Option<E.Result>, ghost now: int, ghost completed: int)
      requires m.Valid() && cleanupDeadline <= overall
      requires cleanupObserved && totalObserved && E.Coherent(Facts())
      modifies this`failure, this`cleanupObserved, this`totalObserved, m`clocks, m`now, m`raised
      ensures m.Valid() && m.now >= old(m.now) && m.raised >= old(m.raised)
      ensures old(E.Accountable(Body())) ==> m.raised == if r.None? then old(m.raised) + 1 else old(m.raised)
      ensures !old(E.Accountable(Body())) ==> r.None?
      ensures !old(E.Accountable(Body())) && old(m.clocks) != [] && old(m.clocks)[0].Tick? ==> m.raised == old(m.raised)
      ensures r.Some? ==> now <= completed == m.now
      ensures r.Some? ==> r.value == E.Build(E.FinishedFacts(old(Facts()), now, completed, cleanupDeadline, overall))
    {
      hide Machine.Valid, E.Build, E.FailureOf, E.BeforeBuild, E.AfterBuild, Body, E.Coherent, E.ResultValid;
      hide E.Accountable;
      ghost var facts := Facts();
      now, completed := 0, 0;
      var first := m.Now();
      if first.None? {
        return None, now, completed;
      }
      now := first.value;
      NoteDeadlines(first.value, cleanupDeadline, overall);
      var result := BuildResult();
      E.FirstBuildValid(facts, now, cleanupDeadline, overall);
      if !E.ResultValid(result) {
        return None, now, completed;
      }
      var second := m.Now();
      if second.None? {
        return None, now, completed;
      }
      completed := second.value;
      if (cleanupObserved && second.value >= cleanupDeadline) || (totalObserved && second.value >= overall) {
        NoteOverrun(second.value, cleanupDeadline, overall);
        result := BuildResult();
        E.FinishedValid(facts, now, completed, cleanupDeadline, overall);
        if !E.ResultValid(result) {
          return None, now, completed;
        }
      }
      r := Some(result);
    }

    /** Evidence is returned exactly when it validates and no clock reading raised. */
    method FinishBeforeDeadline(m: Machine, cleanupDeadline: int, overall: int) returns (r: Option<E.Result>)
      requires m.Valid() && cleanupDeadline <= overall
      requires cleanupObserved && totalObserved && E.Coherent(Facts())
      modifies this`failure, this`cleanupObserved, this`totalObserved, m`clocks, m`now, m`raised
      ensures m.Valid() && m.now >= old(m.now) && m.raised >= old(m.raised)
      ensures old(E.Accountable(Body())) ==> m.raised == if r.None? then old(m.raised) + 1 else old(m.raised)
      ensures !old(E.Accountable(Body())) ==> r.None?
      ensures !old(E.Accountable(Body())) && old(m.clocks) != [] && old(m.clocks)[0].Tick? ==> m.raised == old(m.raised)
      ensures r.Some? ==> E.Concludes(old(Facts()), m.now, cleanupDeadline, overall, r.value)
    {
      hide Machine.Valid, E.Coherent, E.Concludes, E.FinishedFacts, E.Build, E.Accountable;
      ghost var now, completed;
      ghost var facts := Facts();
      r, now, completed := BuildBetweenReadings(m, cleanupDeadline, overall);
      if r.Some? {
        E.FinishedConcludes(facts, now, completed, cleanupDeadline, overall);
      }
    }

    // -------------------------------------------------------------------------------------
    // The phases

    /** Everything cleanup will record still has its initial value. */
    ghost predicate Untouched()
      reads this
    {
      && execFinalized && leafFdFinalized && !cgroupAttempted && !cgroupCompleted && duration.None?
      && failureReason.None? && adopted == 0 && !noChildren && !subreaperRestored && !artifactClosed
      && cleanupObserved && totalObserved
    }

    /** What the launch part of the lifecycle has recorded makes sense. */
    ghost predicate Launched()
      reads this
    {
      Untouched() && LaunchCoherent(Body(), failure)
    }

    /** What the launch phases leave behind for cleanup. */
    ghost predicate AfterLaunch(log: seq<Event>, env: Environment, overall: int, low: int)
      reads this
    {
      Untouched() && LaunchRecord(Body(), failure, log, env, overall, low)
    }

    ghost predicate PreparedBy(env: Environment)
      reads this`execFinalized, this`leafFdFinalized, this`handoff
    {
      DescriptorsAnswered(env, handoff, execFinalized, leafFdFinalized)
    }

    /** What cleanup has recorded is what its collaborators answered. */
    ghost predicate ReleasedBy(env: Environment)
      reads this`execFinalized, this`leafFdFinalized, this`handoff
      reads this`artifactClosed, this`subreaperRestored, this`noChildren
    {
      Answered(env, handoff, execFinalized, leafFdFinalized, artifactClosed, noChildren, subreaperRestored)
    }

    /** Retention either hands over a fresh handle to a leaf that is now there, or fails; and then
        a leaf left behind is always flagged. */
    method Retain(dir: C.Directory, wanted: C.Leaf, e: Option<ErrorNumber>) returns (handle: Option<C.RetainedLeaf>)
      requires Blank() && wanted.identity != dir.root && wanted.name == dir.reserved
      modifies this`leaf, this`failure, this`retentionUncertain, dir
      ensures dir.troubles >= old(dir.troubles) && dir.touched <= old(dir.touched) + {dir.reserved}
      ensures handle.Some? <==> Delegable(old(dir.entries), dir, wanted) && dir.troubles == old(dir.troubles)
      ensures Holds(handle, dir) && leaf == (if handle.Some? then Some(IdentityOf(dir, wanted)) else None)
      ensures handle.Some? ==>
                && fresh(handle.value) && handle.value.leaf == wanted && dir.clocks == old(dir.clocks)
                && C.Present(dir.entries, wanted) && SoundLeaf(leaf.value) && failure.None? && !retentionUncertain
      ensures handle.None? ==>
                && Launched() && failure.Some? && RetainFailure(failure.value, e)
                && (retentionUncertain <==> failure.value.component == E.Cgroup(C.CleanupIncomplete))
                && (C.Kept(old(dir.entries), dir.entries, wanted) || retentionUncertain)
                && C.AddsOnly(old(dir.entries), dir.entries, wanted)
    {
      hide Launched, Blank, C.AddsOnly;
      BlankIsUntouched();
      handle := None;
      var outcome := C.Retain(dir, wanted, E.MAX_CLEANUP_MS);
      match outcome
      case Done(retained) =>
        handle := Some(retained);
        leaf := Some(IdentityOf(dir, wanted));
      case Raises(why) =>
        NoteRetention(why, e);
    }

    /** A failed retention is uncertain exactly when the component could not clean up. */
    method NoteRetention(why: C.Reason, e: Option<ErrorNumber>)
      requires Untouched() && failure.None? && leaf.None? && !handoff && nativeRun.None? && observation.None?
      requires !retentionUncertain
      modifies this`failure, this`retentionUncertain
      ensures Launched() && failure.Some? && RetainFailure(failure.value, e)
      ensures retentionUncertain <==> why == C.CleanupIncomplete
      ensures retentionUncertain <==> failure.value.component == E.Cgroup(C.CleanupIncomplete)
    {
      hide Launched;
      if why == C.Unexpected {
        Fail(E.Failure(E.CgroupRetention, E.UnexpectedError, E.UnexpectedCgroupException, e));
      } else {
        retentionUncertain := why == C.CleanupIncomplete;
        Fail(E.Failure(E.CgroupRetention, E.CgroupRetentionFailed, E.Cgroup(why), e));
      }
      RetentionFailed(e);
    }

    lemma BlankIsUntouched()
      requires Blank()
      ensures Untouched() && failure.None? && leaf.None? && !handoff && nativeRun.None? && observation.None?
      ensures !retentionUncertain
    {
    }

    lemma RetentionFailed(e: Option<ErrorNumber>)
      requires failure.Some? && RetainFailure(failure.value, e)
      requires retentionUncertain <==> failure.value.component == E.Cgroup(C.CleanupIncomplete)
      requires leaf.None? && !handoff && nativeRun.None? && observation.None? && Untouched()
      ensures Launched()
    {
    }

    method HandOff(m: Machine, answer: Handoff, fixtureDeadline: int)
      requires m.Valid() && Untouched() && leaf.Some? && SoundLeaf(leaf.value) && failure.None? && !retentionUncertain
      requires !handoff && nativeRun.None? && observation.None?
      modifies this`handoff, this`failure, m`clocks, m`now, m`raised
      ensures m.Valid() && m.now >= old(m.now) && m.raised >= old(m.raised)
      ensures handoff <==> failure.None?
      ensures failure == if m.raised > old(m.raised) then HandoffFailure(HandoffRaises(None))
                         else if m.now >= fixtureDeadline then
                           Some(E.Failure(E.CgroupHandoff, E.DeadlineExceeded, E.FixtureDeadline, None))
                         else HandoffFailure(answer)
      ensures !handoff ==> Launched()
    {
      hide Machine.Valid;
      var now := m.Now();
      if now.None? {
        Fail(E.Failure(E.CgroupHandoff, E.CgroupHandoffFailed, E.LeafDescriptorHandoffFailed, None));
        return;
      }
      if now.value >= fixtureDeadline {
        Fail(E.Failure(E.CgroupHandoff, E.DeadlineExceeded, E.FixtureDeadline, None));
        return;
      }
      match answer
      case HandedOff =>
        handoff := true;
      case HandoffFails(component, e) =>
        Fail(E.Failure(E.CgroupHandoff, E.CgroupHandoffFailed, component, e));
      case HandoffRaises(e) =>
        Fail(E.Failure(E.CgroupHandoff, E.CgroupHandoffFailed, E.LeafDescriptorHandoffFailed, e));
    }

    method LaunchAndObserve(m: Machine, env: Environment, d: Deadlines)
      requires m.Valid() && Untouched() && leaf.Some? && SoundLeaf(leaf.value) && failure.None? && !retentionUncertain
      requires handoff && nativeRun.None? && observation.None? && m.log == []
      modifies this`nativeRun, this`observation, this`failure, m
      ensures m.Valid() && m.now >= old(m.now) && m.raised >= old(m.raised) && m.reaps == old(m.reaps) && Launched()
      ensures nativeRun.Some? ==> RunFacts(nativeRun.value, m.log, d.overall) && RunTells(nativeRun.value, env.launch)
      ensures nativeRun.None? ==> m.log == []
      ensures DeadlineFixed(nativeRun, Min(d.overall, old(m.now) + d.cleanupTimeout))
      ensures observation.Some? ==> nativeRun.Some? && ObservedFrom(observation.value, nativeRun.value)
      ensures failure.None? ==>
                && nativeRun.Some? && nativeRun.value.failure.None? && m.raised == old(m.raised)
                && !env.spawnRaises && env.observationBuilds
      ensures Launchable(env) && Orderly(old(m.waits)) && m.raised == old(m.raised) && m.now < d.fixture <= d.overall
              ==> && nativeRun.Some? && Flawless(nativeRun.value) && nativeRun.value.deadline.Some?
                  && observation.Some?
                  && (failure.None? <==> E.ReplayAccepted(observation))
    {
      hide Machine.Valid, E.ReplayOf, RunFacts, E.FailureCoherent, E.ObservationCoherent, E.RunCoherent;
      hide RunTells, Orderly, Smooth;
      if env.spawnRaises {
        Fail(E.Failure(E.LauncherSetup, E.UnexpectedError, E.UnexpectedLauncherSetupException, None));
        NothingSpawned(Body(), failure.value);
        return;
      }
      var run := SpawnAndCollect(m, env.launch, d);
      assert m.log[0..] == m.log;
      Observe(run, env.observationBuilds);
      LaunchIsCoherent(Body(), run, env.observationBuilds, failure, m.log, d.overall);
    }

    /** Takes over the run's own failure, replays its records, and blames a replay that is not
        accepted. */
    method Observe(run: E.NativeRun, built: bool)
      requires nativeRun.None? && observation.None? && failure.None?
      modifies this`nativeRun, this`observation, this`failure
      ensures nativeRun == Some(run) && observation == ObservationOf(run, built)
      ensures failure == ObservedFailure(run, built)
    {
      hide E.ReplayOf;
      nativeRun := Some(run);
      if run.failure.Some? {
        Fail(run.failure.value);
      }
      if run.pid.Some? {
        if built {
          observation := Some(E.Observation(run.pid.value, run.returncode, run.eof, run.records,
                                            E.ReplayOf(run.pid.value, run.returncode, run.eof, run.records)));
        } else {
          Fail(E.Failure(E.TranscriptValidation, E.UnexpectedError, E.NativeObservationBuildFailed, None));
        }
      }
      if failure.None? && !E.ReplayAccepted(observation) {
        Fail(E.Failure(E.TranscriptValidation, E.NativeTranscriptRejected, E.NativeReplayRejected, None));
      }
    }

    /** The finally block: every resource gets its one cleanup attempt. */
    method CleanUp(
      m: Machine, dir: C.Directory, handle: Option<C.RetainedLeaf>, env: Environment, overall: int,
      cleanupTimeout: nat, ghost low: int) returns (deadline: int)
      requires m.Valid() && (leaf.Some? <==> handle.Some?) && Holds(handle, dir)
      requires AfterLaunch(m.log, env, overall, low)
      modifies this`failure, this`leafFdFinalized, this`execFinalized, this`cgroupAttempted, this`cgroupCompleted
      modifies this`duration, this`failureReason, this`adopted, this`noChildren, this`artifactClosed
      modifies this`subreaperRestored, m`clocks, m`now, m`raised, m`reaps, m`log, dir, Owned(handle)
      ensures m.Valid() && m.now >= old(m.now) && m.raised >= old(m.raised) && deadline <= overall
      ensures handle.None? ==> dir.entries == old(dir.entries) && !cgroupCompleted
      ensures handle.Some? ==> C.RemovesOnly(old(dir.entries), dir.entries, handle.value.leaf)
      ensures cgroupCompleted ==> dir.reserved !in dir.entries
      ensures adopted == Counted(m.log)
      ensures old(m.log) <= m.log && ReapEvents(m.log[|old(m.log)|..])
      ensures noChildren <==> m.log != old(m.log) && m.log[|m.log| - 1] == ReapedAny(NoChildren)
      ensures old(failure).None? ==> low <= deadline
      ensures ReleasedBy(env) && LeafSettled() && adopted <= MAX_ADOPTED
      ensures (subreaperRestored ==> noChildren) && (noChildren ==> Disposed(nativeRun))
      ensures failure == old(failure) || (Blames(failure) && Flagged())
      ensures failure.None? ==> m.raised == old(m.raised)
      ensures old(failure).None? && ReleasesAll(env) && m.raised == old(m.raised) && m.now < deadline
              && OrderlyReaps(old(m.reaps)) && |old(m.reaps)| <= MAX_ADOPTED
              && dir.troubles == old(dir.troubles) && Quick(old(dir.clocks), deadline, m.now)
              ==> failure.None? && noChildren && cgroupCompleted
      ensures m.log != old(m.log) ==> Disposed(nativeRun)
      ensures dir.troubles >= old(dir.troubles) && dir.touched <= old(dir.touched) + {dir.reserved}
      ensures old(failure).Some? ==> failure == old(failure)
    {
      hide Machine.Valid, Flagged, ReleasedBy, LeafSettled, Blames, AfterLaunch, LaunchRecord, Body;
      hide ReleasesAll, PreparedBy, OrderlyReaps, ReapEvents, Quick, Counted, Holds, C.RemovesOnly;
      ghost var waits := m.log;
      LaunchedHolds(waits, env, overall, low);
      deadline := Settle(m, dir, handle, env, overall, cleanupTimeout);
      ghost var settledAt := m.now;
      ReapAndRelease(m, env, deadline);
      QuickWithMoreTime(old(dir.clocks), deadline, deadline, settledAt, m.now);
      CountedAfterWaits(waits, m.log);
    }

    lemma BodyHolds()
      ensures Body().run == nativeRun && Body().observation == observation && Body().leaf == leaf
      ensures Body().handoff == handoff && Body().retentionUncertain == retentionUncertain
      ensures Body().noChildren == noChildren && Body().cgroupCompleted == cgroupCompleted
      ensures Body().adopted == adopted
    {
    }

    /** The cgroup leaf has been dealt with as far as it could be. */
    ghost predicate LeafSettled()
      reads this`leaf, this`cgroupAttempted, this`cgroupCompleted, this`duration, this`failureReason
    {
      E.LeafSettled(leaf.Some?, cgroupAttempted, cgroupCompleted, duration, failureReason)
    }

    /** Something cleanup was responsible for did not work out. */
    ghost predicate Flagged()
      reads this`execFinalized, this`leafFdFinalized, this`noChildren, this`subreaperRestored, this`artifactClosed
      reads this`cgroupAttempted, this`cgroupCompleted
    {
      || !execFinalized || !leafFdFinalized || !noChildren || !subreaperRestored || !artifactClosed
      || (cgroupAttempted && !cgroupCompleted)
    }

    /** Cleanup turns the record of the launch into a coherent state that is true of the history,
        whatever its steps answered. */
    lemma CleanedHolds(
      b: E.Body, before: Option<E.Failure>, waits: seq<Event>, log: seq<Event>, env: Environment, overall: int,
      low: int)
      requires LaunchRecord(b, before, waits, env, overall, low)
      requires b.leaf == leaf && b.handoff == handoff && b.run == nativeRun && b.observation == observation
      requires b.retentionUncertain == retentionUncertain && cleanupObserved && totalObserved
      requires LeafSettled() && ReleasedBy(env) && adopted <= MAX_ADOPTED && adopted == Counted(log)
      requires (subreaperRestored ==> noChildren) && (noChildren ==> Disposed(nativeRun))
      requires before.Some? ==> failure == before
      requires failure == before || (Blames(failure) && Flagged())
      requires waits <= log && ReapEvents(log[|waits|..]) && (log != waits ==> Disposed(nativeRun))
      ensures E.Coherent(Facts())
      ensures Recorded(Facts(), waits, log, overall) && (Winning(Facts()) ==> Succeeds(env))
    {
      hide E.ReplayOf, E.Allowed, RunFacts, RunTells, Succeeds, Winning, ObservedFrom;
      CleanupIncompleteAllowed();
      if failure.None? {
        WinningNeeds(Facts(), env);
      }
      WinningHolds(Facts());
    }

    /** Nothing in the way: cleanup leaves what a success needs. */
    lemma SmoothWins(
      b: E.Body, before: Option<E.Failure>, waits: seq<Event>, env: Environment, overall: int, low: int)
      requires LaunchRecord(b, before, waits, env, overall, low) && LaunchedSmoothly(b, before) && Succeeds(env)
      requires b.leaf == leaf && b.run == nativeRun && b.observation == observation
      requires leaf.Some? && b.retentionUncertain == retentionUncertain && ReleasedBy(env)
      requires before.None? ==> failure.None? && noChildren && cgroupCompleted
      ensures Winning(Facts())
    {
      hide E.ReplayOf, Received, RunFacts;
      var run, o := nativeRun.value, observation.value;
      var records :| Received(env.launch.socket, records) && Succeeded(env.launch.setup.pid, records);
      ReceivedOnce(env.launch.socket, records, run.records);
    }

    lemma FinalizedHolds(f: E.Failure)
      requires failure == Some(f) && f.stage == E.AttemptFinalization && E.Allowed(f.stage, f.reason)
      requires leaf.None? && !handoff && nativeRun.None? && observation.None? && !retentionUncertain
      requires !cgroupAttempted && !cgroupCompleted && duration.None? && failureReason.None?
      requires adopted <= MAX_ADOPTED && (subreaperRestored ==> noChildren) && cleanupObserved && totalObserved
      ensures E.Coherent(Facts()) && !E.Created(Facts().body) && Facts().body.leaf.None?
      ensures Facts().body == Body() && Body().adopted == adopted
    {
    }

    lemma LaunchedHolds(log: seq<Event>, env: Environment, overall: int, low: int)
      requires AfterLaunch(log, env, overall, low)
      ensures Untouched() && WaitEvents(log) && LaunchRecord(Body(), failure, log, env, overall, low)
      ensures (leaf.Some? ==> SoundLeaf(leaf.value)) && (handoff ==> leaf.Some?) && (nativeRun.Some? ==> handoff)
      ensures retentionUncertain ==> leaf.None?
      ensures nativeRun.Some? && nativeRun.value.deadline.Some? ==> low <= nativeRun.value.deadline.value <= overall
      ensures failure.None? ==> nativeRun.Some? && nativeRun.value.deadline.Some? && Disposed(nativeRun)
    {
    }

    /** What is left once the leaf has been dealt with: children, handle, host guard. */
    method ReapAndRelease(m: Machine, env: Environment, deadline: int)
      requires m.Valid() && adopted == 0 && !noChildren && !subreaperRestored
      requires cgroupAttempted && !cgroupCompleted ==> failureReason.Some?
      modifies this`adopted, this`noChildren, this`artifactClosed, this`subreaperRestored, this`failure
      modifies m`clocks, m`now, m`raised, m`reaps, m`log
      ensures m.Valid() && m.now >= old(m.now) && m.raised >= old(m.raised)
      ensures old(m.log) <= m.log && ReapEvents(m.log[|old(m.log)|..])
      ensures m.log != old(m.log) ==> Disposed(nativeRun)
      ensures adopted <= MAX_ADOPTED && (subreaperRestored ==> noChildren) && (noChildren ==> Disposed(nativeRun))
      ensures adopted == if m.log == old(m.log) then 0 else Counted(m.log[|old(m.log)|..])
      ensures old(PreparedBy(env)) ==> ReleasedBy(env)
      ensures noChildren <==> m.log != old(m.log) && m.log[|m.log| - 1] == ReapedAny(NoChildren)
      ensures failure.None? ==> m.raised == old(m.raised) && (cgroupAttempted ==> cgroupCompleted)
      ensures old(failure).None? && old(PreparedBy(env)) && ReleasesAll(env) && cgroupCompleted
              && Disposed(nativeRun) && m.raised == old(m.raised) && m.now < deadline
              && OrderlyReaps(old(m.reaps)) && |old(m.reaps)| <= MAX_ADOPTED
              ==> failure.None? && noChildren
      ensures old(failure).Some? ==> failure == old(failure)
      ensures failure == old(failure) || (Blames(failure) && Flagged())
    {
      hide Machine.Valid, ReapEvents, OrderlyReaps, Counted;
      ReapChildren(m, deadline);
      Release(env);
    }

    /** The head of the finally block: deadline, descriptors and the cgroup leaf. */
    method Settle(
      m: Machine, dir: C.Directory, handle: Option<C.RetainedLeaf>, env: Environment, overall: int,
      cleanupTimeout: nat) returns (deadline: int)
      requires m.Valid() && (leaf.Some? <==> handle.Some?) && Holds(handle, dir)
      requires !cgroupAttempted && !cgroupCompleted && duration.None? && failureReason.None?
      requires nativeRun.Some? && nativeRun.value.deadline.Some? ==> nativeRun.value.deadline.value <= overall
      requires failure.None? ==> nativeRun.Some? && nativeRun.value.deadline.Some?
      requires (leaf.Some? ==> SoundLeaf(leaf.value)) && (handoff ==> leaf.Some?) && (nativeRun.Some? ==> handoff)
      requires retentionUncertain ==> leaf.None?
      modifies this`failure, this`leafFdFinalized, this`execFinalized
      modifies this`cgroupAttempted, this`cgroupCompleted, this`duration, this`failureReason, m`clocks, m`now, m`raised
      modifies dir, Owned(handle)
      ensures m.Valid() && m.now >= old(m.now) && m.raised >= old(m.raised) && m.log == old(m.log)
      ensures dir.troubles >= old(dir.troubles) && dir.touched <= old(dir.touched) + {dir.reserved}
      ensures handle.None? ==> dir.entries == old(dir.entries) && !cgroupCompleted
      ensures handle.Some? ==> C.RemovesOnly(old(dir.entries), dir.entries, handle.value.leaf)
      ensures cgroupCompleted ==> dir.reserved !in dir.entries
      ensures deadline <= overall && failure == old(failure)
      ensures nativeRun.Some? && nativeRun.value.deadline.Some? ==> deadline == nativeRun.value.deadline.value
      ensures old(leafFdFinalized) ==> PreparedBy(env)
      ensures failure.None? && (cgroupAttempted ==> cgroupCompleted) ==> m.raised == old(m.raised)
      ensures failure.None? && m.raised == old(m.raised) && dir.troubles == old(dir.troubles)
              && Quick(old(dir.clocks), deadline, m.now)
              ==> cgroupCompleted
      ensures LeafSettled()
      ensures cgroupAttempted && !cgroupCompleted ==> failureReason.Some?
    {
      hide Machine.Valid, Holds, Quick, C.RemovesOnly;
      deadline := SetDeadline(m, overall, cleanupTimeout);
      if handoff {
        leafFdFinalized := env.leafFdCloses;
      }
      execFinalized := env.execFdCloses;
      CleanCgroup(m, dir, handle, deadline);
    }

    /** The tail of the finally block: handle, host guard, and what is left to report. */
    method Release(env: Environment)
      requires !subreaperRestored && (cgroupAttempted && !cgroupCompleted ==> failureReason.Some?)
      modifies this`artifactClosed, this`subreaperRestored, this`failure
      ensures artifactClosed == (env.artifactClose == Closes(true))
      ensures subreaperRestored <==> noChildren && env.restore == Restores(true)
      ensures failure == if old(failure).Some? then old(failure)
                         else ReleaseFailure(env, noChildren, execFinalized, leafFdFinalized,
                                             if cgroupAttempted && !cgroupCompleted then failureReason else None)
      ensures failure == old(failure) || (Blames(failure) && Flagged())
    {
      CloseArtifact(env.artifactClose);
      if noChildren {
        Restore(env.restore);
      }
      if !execFinalized {
        Fail(Unclean(E.ArtifactDescriptorCloseFailed, None));
      }
      if !leafFdFinalized {
        Fail(Unclean(E.LeafDescriptorCloseFailed, None));
      }
      if cgroupAttempted && !cgroupCompleted {
        Fail(Unclean(failureReason.value, None));
      }
    }

    /** The cleanup deadline: the one the wait fixed, or one fixed now. */
    method SetDeadline(m: Machine, overall: int, cleanupTimeout: nat) returns (deadline: int)
      requires m.Valid()
      requires nativeRun.Some? && nativeRun.value.deadline.Some? ==> nativeRun.value.deadline.value <= overall
      requires failure.None? ==> nativeRun.Some? && nativeRun.value.deadline.Some?
      modifies this`failure, m`clocks, m`now, m`raised
      ensures m.Valid() && m.now >= old(m.now) && deadline <= overall && failure == old(failure)
      ensures if nativeRun.Some? && nativeRun.value.deadline.Some? then
                deadline == nativeRun.value.deadline.value && m.raised == old(m.raised)
              else if m.raised == old(m.raised) then deadline == Min(overall, m.now + cleanupTimeout)
              else m.raised == old(m.raised) + 1 && deadline == overall
    {
      hide Machine.Valid;
      if nativeRun.Some? && nativeRun.value.deadline.Some? {
        return nativeRun.value.deadline.value;
      }
      var now := m.Now();
      if now.None? {
        Fail(Unclean(E.CleanupClockFailed, None));
        return overall;
      }
      return Min(overall, now.value + cleanupTimeout);
    }

    /** The leaf is cleaned up once, within what is left until the deadline: completed means that
        its name is gone. */
    method CleanCgroup(m: Machine, dir: C.Directory, handle: Option<C.RetainedLeaf>, deadline: int)
      requires m.Valid() && !cgroupAttempted && !cgroupCompleted && duration.None? && failureReason.None?
      requires Holds(handle, dir)
      modifies this`cgroupAttempted, this`cgroupCompleted, this`duration, this`failureReason, m`clocks, m`now, m`raised
      modifies dir, Owned(handle)
      ensures m.Valid() && m.now >= old(m.now) && m.raised >= old(m.raised)
      ensures (cgroupAttempted <==> handle.Some?) && dir.troubles >= old(dir.troubles)
      ensures dir.touched <= old(dir.touched) + {dir.reserved}
      ensures handle.None? ==> dir.entries == old(dir.entries)
      ensures handle.Some? ==> C.RemovesOnly(old(dir.entries), dir.entries, handle.value.leaf)
      ensures cgroupCompleted ==> handle.Some? && m.raised == old(m.raised) && dir.reserved !in dir.entries
      ensures cgroupCompleted ==> duration.Some? && duration.value <= E.MAX_CLEANUP_MS && failureReason.None?
      ensures !cgroupCompleted ==> duration.None? && (failureReason.Some? <==> cgroupAttempted)
      ensures handle.Some? && C.Kept(old(dir.entries), dir.entries, handle.value.leaf) ==>
                failureReason in {Some(E.Cgroup(C.CleanupIncomplete)), Some(E.UnexpectedComponentError)}
      ensures handle.Some? && m.raised == old(m.raised) && dir.troubles == old(dir.troubles)
              && Quick(old(dir.clocks), deadline, m.now)
              ==> cgroupCompleted && duration == Some(C.Milliseconds(old(dir.clocks)[1] - old(dir.clocks)[0]))
    {
      hide Machine.Valid;
      if handle.None? {
        return;
      }
      cgroupAttempted := true;
      var now := m.Now();
      if now.None? {
        failureReason := Some(E.UnexpectedComponentError);
        return;
      }
      var outcome := handle.value.CleanupWithTimeout(dir, Remaining(deadline, now.value));
      match outcome
      case Done(ms) =>
        duration := Some(ms);
        cgroupCompleted := true;
      case Raises(why) =>
        failureReason := Some(if why == C.Unexpected then E.UnexpectedComponentError else E.Cgroup(why));
    }

    /** The wildcard reaper runs only when no launcher exists or it has been reaped. */
    method ReapChildren(m: Machine, deadline: int)
      requires m.Valid() && adopted == 0 && !noChildren
      modifies this`adopted, this`noChildren, this`failure, m`clocks, m`now, m`raised, m`reaps, m`log
      ensures m.Valid() && m.now >= old(m.now) && m.raised >= old(m.raised)
      ensures old(m.log) <= m.log && ReapEvents(m.log[|old(m.log)|..])
      ensures m.log != old(m.log) ==> Disposed(nativeRun)
      ensures Disposed(nativeRun) ==> m.log != old(m.log)
      ensures adopted <= MAX_ADOPTED
      ensures adopted == if m.log == old(m.log) then 0 else Counted(m.log[|old(m.log)|..])
      ensures noChildren <==> m.log != old(m.log) && m.log[|m.log| - 1] == ReapedAny(NoChildren)
      ensures noChildren ==> Disposed(nativeRun) && m.raised == old(m.raised) && failure == old(failure)
      ensures !noChildren && old(failure).None? ==>
                && failure.Some?
                && failure.value == Unclean(if !Disposed(nativeRun) then E.LauncherDispositionUnresolved
                                            else if m.raised > old(m.raised) then E.AdoptedDescendantReapFailed
                                            else E.AdoptedDescendantReapIncomplete, failure.value.errno)
      ensures Disposed(nativeRun) && m.raised == old(m.raised) && m.now < deadline
              && OrderlyReaps(old(m.reaps)) && |old(m.reaps)| <= MAX_ADOPTED
              ==> noChildren
      ensures old(failure).Some? ==> failure == old(failure)
      ensures failure == old(failure) || Blames(failure)
    {
      hide Machine.Valid, Children, OrderlyReaps;
      assert m.log[|m.log|..] == [];
      if Disposed(nativeRun) {
        var r := ReapAdopted(m, deadline);
        if r.None? {
          Fail(Unclean(E.AdoptedDescendantReapFailed, None));
          return;
        }
        adopted, noChildren := r.value.reaped, r.value.noChildren;
        if !noChildren {
          Fail(Unclean(E.AdoptedDescendantReapIncomplete, r.value.errno));
        }
      } else {
        Fail(Unclean(E.LauncherDispositionUnresolved, None));
      }
    }

    /** Cleanup when nothing was launched: no child is expected, so any is an anomaly. */
    method AuditAndRelease(m: Machine, env: Environment, cleanupDeadline: int)
      requires m.Valid() && failure.Some? && adopted == 0 && !noChildren && !subreaperRestored
      modifies this`execFinalized, this`adopted, this`noChildren, this`artifactClosed, this`subreaperRestored
      modifies this`failure, m`clocks, m`now, m`raised, m`reaps, m`log
      ensures m.Valid() && m.raised >= old(m.raised) && failure == old(failure)
      ensures old(m.log) <= m.log && ReapEvents(m.log[|old(m.log)|..])
      ensures noChildren <==> m.log != old(m.log) && m.log[|m.log| - 1] == ReapedAny(NoChildren)
      ensures adopted == Counted(m.log[|old(m.log)|..]) <= MAX_ADOPTED
      ensures forall k :: Prompt(old(m.reaps), k) ==>
                adopted == k && m.raised == old(m.raised) && m.clocks == old(m.clocks)
      ensures execFinalized == env.execFdCloses && artifactClosed == (env.artifactClose == Closes(true))
      ensures subreaperRestored <==> noChildren && env.restore == Restores(true)
    {
      hide Machine.Valid, Children;
      execFinalized := env.execFdCloses;
      var reap := ReapAdopted(m, cleanupDeadline);
      if reap.None? {
        Fail(Unclean(E.PrelaunchChildAuditFailed, None));
      } else {
        adopted, noChildren := reap.value.reaped, reap.value.noChildren;
        if !noChildren {
          Fail(Unclean(E.UnexpectedPrelaunchChild, reap.value.errno));
        }
      }
      CloseArtifact(env.artifactClose);
      if noChildren {
        Restore(env.restore);
      }
      if !execFinalized {
        Fail(Unclean(E.ArtifactDescriptorCloseFailed, None));
      }
    }

    method CloseArtifact(close: Close)
      modifies this`artifactClosed, this`failure
      ensures artifactClosed == (close == Closes(true))
      ensures failure == if artifactClosed || old(failure).Some? then old(failure)
                         else Some(Unclean(E.ArtifactHandleCloseFailed, None))
    {
      artifactClosed := close.Closes? && close.closed;
      if !artifactClosed {
        Fail(Unclean(E.ArtifactHandleCloseFailed, None));
      }
    }

    method Restore(restore: Restore)
      requires noChildren
      modifies this`subreaperRestored, this`failure
      ensures subreaperRestored == (restore == Restores(true))
      ensures failure == if restore.Restores? || old(failure).Some? then old(failure)
                         else Some(Unclean(E.SubreaperRestoreFailed, None))
    {
      if restore.RestoreRaises? {
        subreaperRestored := false;
        Fail(Unclean(E.SubreaperRestoreFailed, None));
      } else {
        subreaperRestored := restore.inactive;
      }
    }
  }

  // ---------------------------------------------------------------------------------------
  // Answers of the collaborators

  datatype Handoff =
    HandedOff | HandoffFails(component: E.Component, e: Option<ErrorNumber>) | HandoffRaises(e: Option<ErrorNumber>)
  datatype Close = Closes(closed: bool) | CloseRaises
  datatype Restore = Restores(inactive: bool) | RestoreRaises

  /** `leaf` is the directory the kernel creates for the attempt; `retainErrno` goes with a failed
      retention. */
  datatype Environment = Environment(
    leaf: C.Leaf, retainErrno: Option<ErrorNumber>, handoff: Handoff, spawnRaises: bool, launch: Launch,
    observationBuilds: bool, leafFdCloses: bool, execFdCloses: bool, artifactClose: Close, restore: Restore)

  predicate SoundLeaf(leaf: E.LeafIdentity) {
    leaf.rootDevice == leaf.leafDevice && leaf.rootInode != leaf.leafInode
  }

  function IdentityOf(dir: C.Directory, leaf: C.Leaf): E.LeafIdentity {
    E.LeafIdentity(dir.root.device, dir.root.inode, leaf.identity.device, leaf.identity.inode)
  }

  function Owned(handle: Option<C.RetainedLeaf>): set<object> {
    if handle.Some? then {handle.value} else {}
  }

  /** A handle, if there is one, is unused and its leaf is there. */
  ghost predicate Holds(handle: Option<C.RetainedLeaf>, dir: C.Directory)
    reads dir, Owned(handle)
  {
    handle.Some? ==>
      && handle.value.Valid() && !handle.value.finished && handle.value.bound == E.MAX_CLEANUP_MS
      && C.Present(dir.entries, handle.value.leaf) && handle.value.leaf.name == dir.reserved
  }

  /** The cgroup component's timeout: what is left until the deadline in whole milliseconds, at
      least one and at most the bound. */
  function Remaining(deadline: int, now: int): (ms: nat)
    ensures 1 <= ms <= E.MAX_CLEANUP_MS
    ensures forall k: nat :: k <= E.MAX_CLEANUP_MS && k * 1_000_000 <= deadline - now ==> k <= ms
  {
    if deadline - now <= 0 then 1
    else
      var whole := (deadline - now) / 1_000_000;
      if whole < 1 then 1 else if whole > E.MAX_CLEANUP_MS then E.MAX_CLEANUP_MS else whole
  }

  /** The cgroup component's own clock shows a cleanup that fits into what is left. */
  predicate Quick(clocks: seq<int>, deadline: int, now: int) {
    && |clocks| >= 2 && clocks[0] <= clocks[1]
    && var ms := C.Milliseconds(clocks[1] - clocks[0]);
       ms <= E.MAX_CLEANUP_MS && ms * 1_000_000 <= deadline - now
  }

  lemma QuickWithMoreTime(clocks: seq<int>, deadline: int, longer: int, now: int, later: int)
    ensures now <= later && deadline <= longer && Quick(clocks, deadline, later) ==> Quick(clocks, longer, now)
  {
  }

  /** What a failed retention is reported as. */
  predicate RetainFailure(f: E.Failure, e: Option<ErrorNumber>) {
    && f.stage == E.CgroupRetention && f.errno == e
    && (f.component == E.UnexpectedCgroupException <==> f.reason == E.UnexpectedError)
    && (f.component.Cgroup? <==> f.reason == E.CgroupRetentionFailed)
    && (f.reason == E.UnexpectedError || f.reason == E.CgroupRetentionFailed)
  }

  function HandoffFailure(handoff: Handoff): Option<E.Failure> {
    match handoff
    case HandedOff => None
    case HandoffFails(component, e) => Some(E.Failure(E.CgroupHandoff, E.CgroupHandoffFailed, component, e))
    case HandoffRaises(e) =>
      Some(E.Failure(E.CgroupHandoff, E.CgroupHandoffFailed, E.LeafDescriptorHandoffFailed, e))
  }

  /** What cleanup blames first, in the order of its checks. */
  function ReleaseFailure(
    env: Environment, noChildren: bool, exec: bool, leafFd: bool, cgroup: Option<E.Component>): Option<E.Failure>
  {
    if env.artifactClose != Closes(true) then Some(Unclean(E.ArtifactHandleCloseFailed, None))
    else if noChildren && env.restore.RestoreRaises? then Some(Unclean(E.SubreaperRestoreFailed, None))
    else if !exec then Some(Unclean(E.ArtifactDescriptorCloseFailed, None))
    else if !leafFd then Some(Unclean(E.LeafDescriptorCloseFailed, None))
    else if cgroup.Some? then Some(Unclean(cgroup.value, None))
    else None
  }

  /** Nothing keeps the launcher from being created and observed. */
  ghost predicate Launchable(env: Environment) {
    !env.spawnRaises && env.observationBuilds && Smooth(env.launch)
  }

  /** Every cleanup step would succeed. */
  predicate ReleasesAll(env: Environment) {
    && env.leafFdCloses && env.execFdCloses && env.artifactClose == Closes(true) && env.restore == Restores(true)
  }

  /** The replayed observation of a run that created a launcher. */
  function ObservationOf(run: E.NativeRun, built: bool): Option<E.Observation> {
    if run.pid.Some? && built then
      Some(E.Observation(run.pid.value, run.returncode, run.eof, run.records,
                         E.ReplayOf(run.pid.value, run.returncode, run.eof, run.records)))
    else None
  }

  function ObservedFailure(run: E.NativeRun, built: bool): Option<E.Failure> {
    if run.failure.Some? then run.failure
    else if run.pid.Some? && !built then
      Some(E.Failure(E.TranscriptValidation, E.UnexpectedError, E.NativeObservationBuildFailed, None))
    else if !E.ReplayAccepted(ObservationOf(run, built)) then
      Some(E.Failure(E.TranscriptValidation, E.NativeTranscriptRejected, E.NativeReplayRejected, None))
    else None
  }

  predicate DescriptorsAnswered(env: Environment, handoff: bool, exec: bool, leafFd: bool) {
    exec == env.execFdCloses && leafFd == (handoff ==> env.leafFdCloses)
  }

  /** Everything cleanup releases is recorded as its collaborators answered. */
  predicate Answered(
    env: Environment, handoff: bool, exec: bool, leafFd: bool, artifact: bool, noChildren: bool, restored: bool)
  {
    && DescriptorsAnswered(env, handoff, exec, leafFd)
    && artifact == (env.artifactClose == Closes(true))
    && (restored <==> noChildren && env.restore == Restores(true))
  }

  predicate DeadlineFixed(run: Option<E.NativeRun>, low: int) {
    run.Some? && run.value.deadline.Some? ==> run.value.deadline.value >= low
  }

  predicate ObservedFrom(o: E.Observation, run: E.NativeRun) {
    run.pid == Some(o.pid) && o.returncode == run.returncode && o.eof == run.eof && o.records == run.records
  }

  function Unclean(component: E.Component, errno: Option<ErrorNumber>): E.Failure {
    E.Failure(E.Cleanup, E.CleanupIncomplete, component, errno)
  }

  lemma NothingSpawned(b: E.Body, failure: E.Failure)
    requires b.handoff && b.leaf.Some? && b.run.None? && b.observation.None? && !b.retentionUncertain
    requires failure.stage == E.LauncherSetup && failure.reason == E.UnexpectedError
    ensures E.FailureCoherent(Some(failure), b) && E.ObservationCoherent(b)
  {
  }

  /** The failure recorded after observing a run fits the run and its replay. */
  lemma LaunchIsCoherent(
    b: E.Body, run: E.NativeRun, built: bool, failure: Option<E.Failure>, log: seq<Event>, overall: int)
    requires RunFacts(run, log, overall)
    requires b.handoff && b.leaf.Some? && b.run == Some(run) && !b.retentionUncertain
    requires b.observation == ObservationOf(run, built) && failure == ObservedFailure(run, built)
    ensures E.FailureCoherent(failure, b) && E.ObservationCoherent(b) && E.RunCoherent(run)
    ensures failure.Some? ==> failure.value.stage != E.Cleanup
  {
  }

  /** No launcher was created, or it has been reaped. */
  predicate Disposed(run: Option<E.NativeRun>) {
    run.None? || run.value.pid.None? || run.value.reaped
  }

  predicate Blames(failure: Option<E.Failure>) {
    failure.Some? && failure.value.stage == E.Cleanup && failure.value.reason == E.CleanupIncomplete
  }

  /** Leaf, handoff, run, observation and failure fit together. */
  predicate LaunchCoherent(b: E.Body, failure: Option<E.Failure>) {
    && (b.leaf.Some? ==> SoundLeaf(b.leaf.value)) && (b.handoff ==> b.leaf.Some?) && (b.run.Some? ==> b.handoff)
    && E.ObservationCoherent(b)
    && (b.run.Some? ==> E.RunCoherent(b.run.value))
    && (b.retentionUncertain ==> b.leaf.None?)
    && E.FailureCoherent(failure, b)
    && (failure.Some? ==> failure.value.stage != E.Cleanup)
  }

  /** All the launch phases record: in order, true of the waits in `log`, with a deadline not before
      `low`, and without a failure only if every answer was as wished. */
  ghost predicate LaunchRecord(
    b: E.Body, failure: Option<E.Failure>, log: seq<Event>, env: Environment, overall: int, low: int)
  {
    && LaunchCoherent(b, failure)
    && (if b.run.Some? then RunFacts(b.run.value, log, overall) && RunTells(b.run.value, env.launch) else log == [])
    && DeadlineFixed(b.run, low)
    && (b.observation.Some? ==> b.run.Some? && ObservedFrom(b.observation.value, b.run.value))
    && (failure.None? ==>
          && b.run.Some? && b.run.value.failure.None?
          && env.handoff.HandedOff? && !env.spawnRaises && env.observationBuilds)
  }

  /** The launcher came and went as it should; only its report is still to be judged. */
  predicate LaunchedSmoothly(b: E.Body, failure: Option<E.Failure>) {
    && b.run.Some? && Flawless(b.run.value) && b.observation.Some?
    && (failure.None? <==> E.ReplayAccepted(b.observation))
  }

  lemma CleanupIncompleteAllowed()
    ensures E.Allowed(E.Cleanup, E.CleanupIncomplete)
  {
  }

  lemma ReplayNeedsEof(pid: nat, returncode: Option<int>, eof: bool, records: seq<Native.Record>)
    ensures !eof ==> !E.ReplayOf(pid, returncode, eof, records).Accepted?
    ensures returncode.Some? <==> !E.ReplayOf(pid, returncode, eof, records).NotReplayable?
  {
  }

  // ---------------------------------------------------------------------------------------
  // The whole consumed attempt

  /** The launcher's own waits and signals come first; the wildcard reaper runs only after the
      launcher was reaped, or when there never was one. */
  ghost predicate ReaperSafe(log: seq<Event>, created: bool) {
    exists k :: 0 <= k <= |log| && WaitEvents(log[..k]) && ReapEvents(log[k..])
                && (created && k < |log| ==> k > 0 && log[k - 1].Waited? && log[k - 1].answer.Exited?)
                && (!created ==> k == 0)
  }

  /** There was a launcher to wait for. */
  predicate Awaited(log: seq<Event>) {
    log != [] && !log[0].ReapedAny?
  }

  /** Children were reaped and counted although there was no launcher. */
  predicate Orphaned(log: seq<Event>) {
    !Awaited(log) && Counted(log) > 0
  }

  /** The launcher exited by itself with the given code and was never signalled. */
  ghost predicate ExitedAlone(log: seq<Event>, code: int) {
    Waited(Exited(code)) in log && !AnyKill(log)
  }

  /** What the returned evidence has to do with the run that produced it. */
  ghost predicate Answers(r: E.Result, log: seq<Event>) {
    && ReaperSafe(log, r.launcherCreated)
    && E.ResultValid(r) && r.cleanup.adopted == Counted(log) && (r.launcherCreated <==> Awaited(log))
    && (r.outcome == E.FixtureSucceeded <==>
          && r.failure.None? && E.ReplayAccepted(r.observation) && r.observation.value.replay.transcript.succeeded
          && r.cleanup.status == E.Completed && r.cleanupObserved && r.totalObserved)
    && (r.outcome == E.FixtureSucceeded ==> ExitedAlone(log, 0))
  }

  /** These records are a launcher's report that its fixture run succeeded. */
  predicate Succeeded(pid: nat, records: seq<Native.Record>) {
    var replay := E.ReplayOf(pid, Some(0), true, records);
    replay.Accepted? && replay.transcript.succeeded
  }

  ghost predicate Reports(launch: Launch) {
    && launch.setup.SpawnedAs?
    && exists records :: Received(launch.socket, records) && Succeeded(launch.setup.pid, records)
  }

  /** Every collaborator does its part and the launcher reports success. */
  ghost predicate Succeeds(env: Environment) {
    env.handoff.HandedOff? && Launchable(env) && ReleasesAll(env) && Reports(env.launch)
  }

  /** Nothing the kernel answers stands in the way, and time does not run out: the clock started
      at `low` and stands at `high`. */
  predicate Undisturbed(waits: seq<WaitAnswer>, reaps: seq<ReapAnswer>, low: int, high: int, d: Deadlines) {
    && Orderly(waits) && OrderlyReaps(reaps) && |reaps| <= MAX_ADOPTED
    && high < d.fixture <= d.overall && high < low + d.cleanupTimeout
  }

  /** What evidence says about the leaf in the delegated root, which held `before` and now holds
      `after`: cleanup that is not incomplete has restored the leaf's name, and a leaf left behind
      is reported as retained or as an uncertain retention. */
  predicate RootAccounted(
    r: E.Result, before: map<C.Name, C.Identity>, after: map<C.Name, C.Identity>, leaf: C.Leaf)
  {
    && (r.cleanup.status != E.Incomplete ==> C.Kept(before, after, leaf))
    && (r.cleanup.cgroupCompleted ==> C.Kept(before, after, leaf))
    && (!C.Kept(before, after, leaf) ==> r.retained || r.cleanup.retentionUncertain)
  }

  /** The root can take the leaf. */
  predicate Delegable(entries: map<C.Name, C.Identity>, dir: C.Directory, leaf: C.Leaf) {
    leaf.name !in entries && C.SameDevice(dir, leaf)
  }

  /** Nothing stands in the way of success, as of the time `high`. */
  ghost predicate Unhindered(
    env: Environment, waits: seq<WaitAnswer>, reaps: seq<ReapAnswer>, clocks: seq<int>, low: int, high: int,
    d: Deadlines)
  {
    && Succeeds(env) && Undisturbed(waits, reaps, low, high, d)
    && Quick(clocks, Min(d.overall, low + d.cleanupTimeout), high)
  }

  lemma UnhinderedBefore(
    env: Environment, waits: seq<WaitAnswer>, reaps: seq<ReapAnswer>, clocks: seq<int>, low: int, now: int, later: int,
    d: Deadlines)
    requires now <= later && Unhindered(env, waits, reaps, clocks, low, later, d)
    ensures Unhindered(env, waits, reaps, clocks, low, now, d)
    ensures later < d.overall && later < low + d.cleanupTimeout
  {
  }

  /** The recorded facts are those of a success, deadlines aside. */
  predicate Winning(f: E.Facts) {
    && f.failure.None? && E.ReplayAccepted(f.body.observation)
    && f.body.observation.value.replay.transcript.succeeded && E.StatusOf(f.body) == E.Completed
  }

  /** What the history of an attempt says about the facts recorded; `waits` is the part before any
      reaping. */
  ghost predicate Recorded(f: E.Facts, waits: seq<Event>, log: seq<Event>, overall: int) {
    && (if f.body.run.Some? then RunFacts(f.body.run.value, waits, overall) else waits == [])
    && waits <= log && ReapEvents(log[|waits|..]) && (log != waits ==> Disposed(f.body.run))
    && (f.failure.None? ==> f.body.run.Some? && f.body.run.value.failure.None?)
    && f.body.adopted == Counted(log)
  }

  /** What became of the delegated root, told from the facts recorded. */
  predicate RootKept(
    b: E.Body, before: map<C.Name, C.Identity>, after: map<C.Name, C.Identity>, leaf: C.Leaf, delegable: bool)
  {
    && C.AddsOnly(before, after, leaf)
    && (b.leaf.None? ==> (C.Kept(before, after, leaf) || b.retentionUncertain) && !b.cgroupCompleted)
    && (b.leaf.Some? ==> delegable && (b.cgroupCompleted ==> C.Kept(before, after, leaf)))
  }

  /** One consumed attempt. Signals go only to a launcher known to be an own child, the evidence
      answers for the run, and it accounts for the leaf; no other name in the delegated root is ever
      created or removed, whatever else changes there. Success is claimed only if every
      collaborator did its part, no call raised and no deadline passed; and it is claimed whenever
      nothing stands in the way. There is no evidence exactly when children were reaped without a
      launcher or one of the last clock readings raises. */
  method OrchestrateConsumedAttempt(m: Machine, dir: C.Directory, env: Environment, d: Deadlines)
    returns (r: Option<E.Result>)
    requires m.Valid() && m.log == [] && env.leaf.identity != dir.root && env.leaf.name == dir.reserved
    modifies m, dir
    ensures KillSafe(m.log) && C.AddsOnly(old(dir.entries), dir.entries, env.leaf)
    ensures dir.touched <= old(dir.touched) + {env.leaf.name}
    ensures r.Some? ==> Answers(r.value, m.log) && RootAccounted(r.value, old(dir.entries), dir.entries, env.leaf)
    ensures Orphaned(m.log) ==> r.None?
    ensures r.None? ==> m.raised > old(m.raised) || Orphaned(m.log)
    ensures r.Some? && r.value.outcome == E.FixtureSucceeded ==>
              && Succeeds(env) && m.raised == old(m.raised) && m.now < d.overall
              && Delegable(old(dir.entries), dir, env.leaf) && C.Kept(old(dir.entries), dir.entries, env.leaf)
    ensures Unhindered(env, old(m.waits), old(m.reaps), old(dir.clocks), old(m.now), m.now, d)
            && Delegable(old(dir.entries), dir, env.leaf) && dir.troubles == old(dir.troubles)
            && m.raised == old(m.raised)
            ==> r.Some? && r.value.outcome == E.FixtureSucceeded
  {
    hide Machine.Valid, E.Coherent, Answers, E.Concludes, ResultState.Body, Succeeds, Unhindered, Winning, Recorded;
    hide RootAccounted, RootKept, Orphaned, C.AddsOnly, Delegable, E.Accountable;
    ghost var waits;
    var state, deadline;
    state, deadline, waits := Attempt(m, dir, env, d);
    ghost var facts, log, now := state.Facts(), m.log, m.now;
    LaunchSeen(facts, waits, log, d.overall);
    WinningHolds(facts);
    r := state.FinishBeforeDeadline(m, deadline, d.overall);
    if r.Some? {
      EvidenceAnswers(facts, waits, log, m.now, deadline, d.overall, r.value);
      SuccessIsWinning(facts, m.now, deadline, d.overall, r.value);
      RootIsAccounted(facts, m.now, deadline, d.overall, r.value, old(dir.entries), dir.entries, env.leaf,
                      Delegable(old(dir.entries), dir, env.leaf));
    }
    if Unhindered(env, old(m.waits), old(m.reaps), old(dir.clocks), old(m.now), m.now, d) {
      UnhinderedBefore(env, old(m.waits), old(m.reaps), old(dir.clocks), old(m.now), now, m.now, d);
    }
    RootMoves(facts.body, old(dir.entries), dir.entries, env.leaf, Delegable(old(dir.entries), dir, env.leaf));
    ValidIsKillSafe(m);
  }

  /** Everything but the finish: launch phases and cleanup, with the state ready to be reported. */
  method Attempt(m: Machine, dir: C.Directory, env: Environment, d: Deadlines)
    returns (state: ResultState, deadline: int, ghost waits: seq<Event>)
    requires m.Valid() && m.log == [] && env.leaf.identity != dir.root && env.leaf.name == dir.reserved
    modifies m, dir
    ensures fresh(state) && m.Valid() && m.now >= old(m.now) && m.raised >= old(m.raised)
    ensures dir.troubles >= old(dir.troubles) && dir.touched <= old(dir.touched) + {dir.reserved}
    ensures E.Coherent(state.Facts()) && state.cleanupObserved && state.totalObserved
    ensures deadline <= d.overall
    ensures state.failure.None? ==> Min(d.overall, old(m.now) + d.cleanupTimeout) <= deadline
    ensures Recorded(state.Facts(), waits, m.log, d.overall)
    ensures RootKept(state.Body(), old(dir.entries), dir.entries, env.leaf,
                     Delegable(old(dir.entries), dir, env.leaf))
    ensures state.failure.None? ==> m.raised == old(m.raised)
    ensures Winning(state.Facts()) ==> Succeeds(env)
    ensures Unhindered(env, old(m.waits), old(m.reaps), old(dir.clocks), old(m.now), m.now, d)
            && Delegable(old(dir.entries), dir, env.leaf) && dir.troubles == old(dir.troubles)
            && m.raised == old(m.raised)
            ==> Winning(state.Facts())
  {
    hide Machine.Valid, E.Coherent, ResultState.Body, Succeeds, Winning, Recorded, ResultState.AfterLaunch, Quick;
    hide LaunchedSmoothly, Ready, Orderly, OrderlyReaps, Holds, C.AddsOnly, RootKept, Retained;
    state := new ResultState();
    var handle := LaunchPhases(state, m, dir, env, d);
    waits := m.log;
    ghost var low := Min(d.overall, old(m.now) + d.cleanupTimeout);
    deadline := CleanUpAndRecord(state, m, dir, handle, env, d, low, old(dir.entries),
                                 Delegable(old(dir.entries), dir, env.leaf));
    if Succeeds(env) {
      SucceedsIsReady(env);
    }
  }

  /** How the launch phases leave the delegated root, which held `before`. */
  ghost predicate Retained(
    retained: bool, uncertain: bool, before: map<C.Name, C.Identity>, after: map<C.Name, C.Identity>, leaf: C.Leaf,
    delegable: bool)
  {
    if retained then delegable && leaf.name !in before && C.Present(after, leaf)
    else (C.Kept(before, after, leaf) || uncertain) && C.AddsOnly(before, after, leaf)
  }

  /** Cleanup, and what the state then records of the whole attempt. */
  method CleanUpAndRecord(
    state: ResultState, m: Machine, dir: C.Directory, handle: Option<C.RetainedLeaf>, env: Environment, d: Deadlines,
    ghost low: int, ghost before: map<C.Name, C.Identity>, ghost delegable: bool) returns (deadline: int)
    requires m.Valid() && (state.leaf.Some? <==> handle.Some?) && Holds(handle, dir)
    requires (handle.Some? ==> handle.value.leaf == env.leaf) && env.leaf.name == dir.reserved
    requires state.AfterLaunch(m.log, env, d.overall, low)
    requires Retained(handle.Some?, state.retentionUncertain, before, dir.entries, env.leaf, delegable)
    modifies state, m, dir, Owned(handle)
    ensures m.Valid() && m.now >= old(m.now) && m.raised >= old(m.raised) && dir.troubles >= old(dir.troubles)
    ensures dir.touched <= old(dir.touched) + {dir.reserved}
    ensures E.Coherent(state.Facts()) && state.cleanupObserved && state.totalObserved
    ensures deadline <= d.overall && (state.failure.None? ==> low <= deadline)
    ensures Recorded(state.Facts(), old(m.log), m.log, d.overall)
    ensures RootKept(state.Body(), before, dir.entries, env.leaf, delegable)
    ensures state.failure.None? ==> old(state.failure).None? && m.raised == old(m.raised)
    ensures Winning(state.Facts()) ==> Succeeds(env)
    ensures Succeeds(env) && old(LaunchedSmoothly(state.Body(), state.failure)) && handle.Some?
            && m.raised == old(m.raised) && dir.troubles == old(dir.troubles)
            && OrderlyReaps(old(m.reaps)) && |old(m.reaps)| <= MAX_ADOPTED && m.now < low
            && Quick(old(dir.clocks), low, m.now)
            ==> Winning(state.Facts())
  {
    hide Machine.Valid, E.Coherent, ResultState.Body, Succeeds, Winning, Recorded, ResultState.AfterLaunch, Quick;
    hide LaunchedSmoothly, LaunchRecord, ReleasesAll, ResultState.ReleasedBy, OrderlyReaps, Counted, Holds;
    hide C.RemovesOnly, C.AddsOnly, ResultState.LeafSettled, ResultState.Flagged, Blames, RootKept, WaitEvents;
    hide ReapEvents, Disposed, SoundLeaf, C.Kept, C.Present, C.At, Retained;
    ghost var waits, entries, launched, failed := m.log, dir.entries, state.Body(), state.failure;
    state.LaunchedHolds(waits, env, d.overall, low);
    state.BodyHolds();
    deadline := state.CleanUp(m, dir, handle, env, d.overall, d.cleanupTimeout, low);
    state.CleanedHolds(launched, failed, waits, m.log, env, d.overall, low);
    state.BodyHolds();
    KeepsRoot(state.Body(), before, entries, dir.entries, env.leaf, delegable);
    QuickWithMoreTime(old(dir.clocks), low, deadline, m.now, m.now);
    if Succeeds(env) && LaunchedSmoothly(launched, failed) && handle.Some?
       && m.raised == old(m.raised) && dir.troubles == old(dir.troubles)
       && OrderlyReaps(old(m.reaps)) && |old(m.reaps)| <= MAX_ADOPTED && m.now < low
       && Quick(old(dir.clocks), low, m.now)
    {
      SucceedsIsReady(env);
      state.SmoothWins(launched, failed, waits, env, d.overall, low);
    }
  }

  lemma SucceedsIsReady(env: Environment)
    requires Succeeds(env)
    ensures Ready(env) && ReleasesAll(env)
  {
  }

  /** The leaf is added to the root and at most removed again, or retention failed. */
  lemma KeepsRoot(
    b: E.Body, before: map<C.Name, C.Identity>, between: map<C.Name, C.Identity>, after: map<C.Name, C.Identity>,
    leaf: C.Leaf, delegable: bool)
    requires Retained(b.leaf.Some?, b.retentionUncertain, before, between, leaf, delegable)
    requires if b.leaf.Some? then C.RemovesOnly(between, after, leaf) && (b.cgroupCompleted ==> leaf.name !in after)
             else after == between && !b.cgroupCompleted
    ensures RootKept(b, before, after, leaf, delegable)
  {
  }

  ghost predicate Ready(env: Environment) {
    env.handoff.HandedOff? && Launchable(env)
  }

  /** Retention, handoff and launch: whatever happens, the record is in order for cleanup. */
  method LaunchPhases(state: ResultState, m: Machine, dir: C.Directory, env: Environment, d: Deadlines)
    returns (handle: Option<C.RetainedLeaf>)
    requires m.Valid() && m.log == [] && env.leaf.identity != dir.root && env.leaf.name == dir.reserved
    requires state.Blank()
    modifies state, m, dir
    ensures m.Valid() && m.now >= old(m.now) && m.raised >= old(m.raised) && m.reaps == old(m.reaps)
    ensures (state.leaf.Some? <==> handle.Some?) && Holds(handle, dir)
    ensures dir.troubles >= old(dir.troubles) && dir.touched <= old(dir.touched) + {dir.reserved}
    ensures handle.Some? <==> Delegable(old(dir.entries), dir, env.leaf) && dir.troubles == old(dir.troubles)
    ensures handle.Some? ==> fresh(handle.value) && handle.value.leaf == env.leaf && dir.clocks == old(dir.clocks)
    ensures Retained(handle.Some?, state.retentionUncertain, old(dir.entries), dir.entries, env.leaf,
                     Delegable(old(dir.entries), dir, env.leaf))
    ensures state.AfterLaunch(m.log, env, d.overall, Min(d.overall, old(m.now) + d.cleanupTimeout))
    ensures state.failure.None? ==> handle.Some? && m.raised == old(m.raised)
    ensures handle.Some? && Ready(env) && Orderly(old(m.waits)) && m.raised == old(m.raised)
            && m.now < d.fixture <= d.overall
            ==> LaunchedSmoothly(state.Body(), state.failure)
  {
    hide Machine.Valid, RunFacts, E.FailureCoherent, E.ObservationCoherent, Flawless, RunTells, Orderly, Smooth;
    hide C.Kept, C.Present, C.At, C.AddsOnly;
    handle := state.Retain(dir, env.leaf, env.retainErrno);
    if handle.Some? {
      state.HandOff(m, env.handoff, d.fixture);
      if state.handoff {
        state.LaunchAndObserve(m, env, d);
      }
    }
  }

  predicate Released(b: E.Body, env: Environment) {
    Answered(env, b.handoff, b.execFinalized, b.leafFdFinalized, b.artifactClosed, b.noChildren, b.subreaperRestored)
  }

  lemma SuccessIsWinning(f: E.Facts, t: int, cleanupDeadline: int, overall: int, r: E.Result)
    requires E.Concludes(f, t, cleanupDeadline, overall, r)
    ensures r.outcome == E.FixtureSucceeded <==> Winning(f) && t < cleanupDeadline && t < overall
  {
    hide E.ResultValid;
  }

  lemma WinningHolds(f: E.Facts)
    requires E.Coherent(f)
    ensures Winning(f) ==> f.failure.None? && f.body.cgroupCompleted && E.Accountable(f.body)
  {
    hide E.ReplayOf, E.FailureCoherent;
  }

  lemma WinningNeeds(f: E.Facts, env: Environment)
    requires E.Coherent(f)
    requires Released(f.body, env) && f.body.run.Some? && RunTells(f.body.run.value, env.launch)
    requires f.body.observation.Some? ==> ObservedFrom(f.body.observation.value, f.body.run.value)
    requires env.handoff.HandedOff? && !env.spawnRaises && env.observationBuilds
    ensures Winning(f) ==> Succeeds(env)
  {
    hide E.ReplayOf, E.FailureCoherent, Received;
    if Winning(f) {
      var run, o := f.body.run.value, f.body.observation.value;
      ReplayNeedsEof(o.pid, o.returncode, o.eof, o.records);
      assert Received(env.launch.socket, run.records);
      EndsThere(env.launch.socket, run.records);
      assert o.replay == E.ReplayOf(o.pid, o.returncode, true, run.records);
      SuccessCode(o.pid, o.returncode, run.records);
      assert Succeeded(env.launch.setup.pid, run.records);
    }
  }

  lemma SuccessCode(pid: nat, returncode: Option<int>, records: seq<Native.Record>)
    requires var replay := E.ReplayOf(pid, returncode, true, records); replay.Accepted? && replay.transcript.succeeded
    ensures returncode == Some(0)
  {
    Native.SuccessExitsZero(records, returncode.value, true, pid);
  }

  /** The evidence has the leaf and its cleanup as the run recorded them. */
  lemma RootIsAccounted(
    f: E.Facts, t: int, cleanupDeadline: int, overall: int, r: E.Result, before: map<C.Name, C.Identity>,
    after: map<C.Name, C.Identity>, leaf: C.Leaf, delegable: bool)
    requires E.Concludes(f, t, cleanupDeadline, overall, r) && RootKept(f.body, before, after, leaf, delegable)
    ensures RootAccounted(r, before, after, leaf)
  {
    hide E.ResultValid;
  }

  lemma RootMoves(
    b: E.Body, before: map<C.Name, C.Identity>, after: map<C.Name, C.Identity>, leaf: C.Leaf, delegable: bool)
    requires RootKept(b, before, after, leaf, delegable)
    ensures C.AddsOnly(before, after, leaf) && (b.cgroupCompleted ==> delegable && C.Kept(before, after, leaf))
  {
  }

  /** Whether there was a launcher shows in the history, and so does an unaccountable state. */
  lemma LaunchSeen(f: E.Facts, waits: seq<Event>, log: seq<Event>, overall: int)
    requires Recorded(f, waits, log, overall)
    ensures E.Created(f.body) <==> Awaited(log)
    ensures E.Accountable(f.body) <==> !Orphaned(log)
  {
    hide Counted;
    if E.Created(f.body) {
      assert log[0] == waits[0] && waits[0] in waits;
    } else if log != [] {
      assert log[0] == log[|waits|..][0] && log[0] in log[|waits|..];
    }
  }

  lemma EvidenceAnswers(
    f: E.Facts, waits: seq<Event>, log: seq<Event>, t: int, cleanupDeadline: int, overall: int, r: E.Result)
    requires E.Coherent(f) && E.Concludes(f, t, cleanupDeadline, overall, r)
    requires Recorded(f, waits, log, overall) && E.Accountable(f.body)
    ensures Answers(r, log)
  {
    hide E.ResultValid, RunFacts, E.StatusOf, ReaperSafe, ExitedAlone, E.ObservationCoherent, Counted;
    LogIsSafe(f.body, waits, log, overall);
    LaunchSeen(f, waits, log, overall);
    if r.outcome == E.FixtureSucceeded {
      SuccessMeansExit(f, waits, log, overall);
    }
  }

  function FinalizationFailure(ambiguous: bool): E.Failure {
    if ambiguous then
      E.Failure(E.AttemptFinalization, E.AttemptConsumptionAmbiguous, E.RecoveredAfterAmbiguousConsumption, None)
    else
      E.Failure(E.AttemptFinalization, E.AttemptReceiptVerificationFailed,
                E.RecoveredAfterReceiptVerificationFailure, None)
  }

  /** After an ambiguous or unverifiable consumption: no retention, no spawn, only cleanup. There
      is no evidence exactly when a child was reaped or a clock reading raises. */
  method FinalizeConsumedWithoutLaunch(
    m: Machine, env: Environment, ambiguous: bool, cleanupDeadline: int, overall: int) returns (r: Option<E.Result>)
    requires m.Valid() && m.log == [] && cleanupDeadline <= overall
    modifies m
    ensures ReapEvents(m.log)
    ensures Counted(m.log) > 0 ==> r.None?
    ensures r.None? ==> m.raised > old(m.raised) || Counted(m.log) > 0
    ensures r.Some? ==>
              && r.value.outcome == E.OrchestratorFailed && !r.value.launcherCreated && !r.value.retained
              && r.value.failure == Some(FinalizationFailure(ambiguous))
              && E.ResultValid(r.value) && r.value.cleanup.adopted == 0
    ensures forall k :: Prompt(old(m.reaps), k) && k > 0 && old(m.clocks) != [] && old(m.clocks)[0].Tick? ==>
              Counted(m.log) == k && m.raised == old(m.raised)
  {
    hide Machine.Valid, E.Coherent, E.ResultValid, E.StatusOf, Counted, ResultState.Body;
    var state := new ResultState();
    var failure := FinalizationFailure(ambiguous);
    state.Fail(failure);
    state.AuditAndRelease(m, env, cleanupDeadline);
    assert m.log[0..] == m.log;
    state.FinalizedHolds(failure);
    r := state.FinishBeforeDeadline(m, cleanupDeadline, overall);
  }

  /** A run that ends without evidence although nothing raised: the audit finds one child. */
  method OrphanRun(env: Environment, ambiguous: bool) returns (r: Option<E.Result>, ghost log: seq<Event>)
    ensures r.None? && Orphaned(log)
  {
    var m := new Machine([Tick(0)], [], [], [AChild, NoChildren], 0);
    assert Prompt(m.reaps, 1);
    r := FinalizeConsumedWithoutLaunch(m, env, ambiguous, 1, 1);
    log := m.log;
    assert m.raised == 0;
    assert log != [] ==> log[0] in log;
  }

  lemma LogIsSafe(b: E.Body, waits: seq<Event>, log: seq<Event>, overall: int)
    requires b.run.Some? ==> RunFacts(b.run.value, waits, overall)
    requires b.run.None? ==> waits == []
    requires waits <= log && ReapEvents(log[|waits|..])
    requires log != waits ==> Disposed(b.run)
    ensures ReaperSafe(log, E.Created(b))
  {
  }

  lemma SuccessMeansExit(f: E.Facts, waits: seq<Event>, log: seq<Event>, overall: int)
    requires f.body.run.Some? && RunFacts(f.body.run.value, waits, overall) && f.body.run.value.failure.None?
    requires waits <= log && ReapEvents(log[|waits|..])
    requires E.ObservationCoherent(f.body) && E.ReplayAccepted(f.body.observation)
    requires f.body.observation.value.replay.transcript.succeeded
    ensures ExitedAlone(log, 0)
  {
    var run, o := f.body.run.value, f.body.observation.value;
    Native.SuccessExitsZero(o.records, o.returncode.value, o.eof, o.pid);
    assert waits[|waits| - 1] == Waited(Exited(0));
    assert log[|waits| - 1] == waits[|waits| - 1];
    forall i | 0 <= i < |log| ensures !log[i].Killed? {
      if i < |waits| {
        assert log[i] == waits[i] && waits[i] in waits;
      } else {
        assert log[i] == log[|waits|..][i - |waits|] && log[i] in log[|waits|..];
      }
    }
  }
}
