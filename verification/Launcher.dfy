/**
  The native launcher as a state machine over the answers of the kernel. Its terminal record
  is compared with the grammar the parent-side parser accepts.
 */
module Launcher {
  import opened Common
  import opened Wire
  import opened NativeProtocol
  import opened LauncherWaits

  // Result flags, as bits of the achieved mask.
  const CLONE3_INTO_CGROUP := 0x001
  const PIDFD_CREATED := 0x002
  const PIDFD_STOP_SENT := 0x004
  const PIDFD_STOP_OBSERVED := 0x008
  const LIVE_CGROUP_KILL := 0x010
  const PIDFD_EXIT_OBSERVED := 0x020
  const CHILD_REAPED := 0x040
  const CGROUP_EMPTY := 0x080
  const BUILTIN_NOEXEC := 0x100

  type Elapsed = e: int | 0 <= e < 0x1_0000_0000_0000_0000

  // ---------------------------------------------------------------------------------------
  // Answers of the kernel

  datatype Call = Returns | Fails(e: Errno)
  /** A test that can fail without a failing system call: a short send or write, or a descriptor
      with an unexpected number. */
  datatype Check = Pass | Fail(e: Stale)
  datatype Procs = Match | Mismatch | Unreadable(e: Stale)
  datatype Quiet = Silent | QuietPollFailed(e: Errno) | Noisy(event: Event)
  datatype Pidfd = Usable | Unusable(open: bool, e: Stale)

  /** The bounded emergency pass: its clock, the exit-and-empty observation, the reap, and the
      last reading of cgroup.events. */
  datatype Emergency = Emergency(clock: bool, turns: seq<KilledTurn>, reap: bool, emptyReread: bool)

  // One answer for every kernel interaction of one run, phase by phase in program order.

  datatype StartupAnswers = StartupAnswers(
    cgroupDescriptor: Check, extraDescriptors: Check, cgroupFiles: Check, initialEvents: Check,
    initialProcs: Check, initiallyEmpty: bool, signalsAndSeccomp: Check, helloSend: Check)
  datatype CloneAnswers = CloneAnswers(
    deadlineClock: Check, quietSetup: Quiet, pipe: Check, clone: Call, pidfd: Pidfd, closeWriteEnd: Call)
  datatype ReadyAnswers = ReadyAnswers(
    ready: seq<ReadyTurn>, populated: seq<PopulatedTurn>, readyProcs: Procs, quietReady: Quiet, readySend: Check)
  datatype StopAnswers = StopAnswers(
    stopSignal: Call, stopWait: seq<StopTurn>, stoppedEvents: Check, stoppedPopulated: bool, stoppedProcs: Procs,
    quietSignal: Quiet, signaledSend: Check)
  datatype KillAnswers = KillAnswers(
    quietKill: Quiet, kill: Check, killedWait: seq<KilledTurn>, quietObserved: Quiet, observedSend: Check)
  datatype FinishAnswers = FinishAnswers(
    reap: Check, elapsed: Elapsed, quietFinal: Quiet, closeOwned: Call, finalSend: Check)
  datatype FailureAnswers = FailureAnswers(emergency: Emergency, closeAtFailure: Call, errorSend: Check)

  datatype Kernel = Kernel(
    launcherPid: nat, childPid: nat, clockStarts: bool, early: Option<Reason>,
    startup: StartupAnswers, cloning: CloneAnswers, readying: ReadyAnswers,
    stopping: StopAnswers, killing: KillAnswers, finishing: FinishAnswers,
    failing: FailureAnswers)

  /** The reasons a run can fail with before its control socket is usable. */
  predicate EarlyReason(r: Reason) {
    r in {BadArgc, BadArgv, NonemptyEnvironment, BadStdio, BadControlSocket, PeerClosed}
  }

  /** The kernel numbers processes from one to its limit and never gives two the same pid. */
  predicate Sane(k: Kernel) {
    && 1 <= k.launcherPid <= MAX_PID
    && LegalChild(k.childPid, k.launcherPid)
    && (k.early.Some? ==> EarlyReason(k.early.value))
  }

  function WireErrno(e: int): Stale {
    if e < 1 || e > MAX_ERRNO then 0 else e
  }

  // ---------------------------------------------------------------------------------------
  // Where a run leaves the success path

  datatype Child = NoChild | Live(pidfdOpen: bool) | Reaped

  /** The place of the first failure: success frames already sent, achieved mask, child state,
      diagnosis, whether the control socket can still carry an error frame, and whether
      descriptors are left to close. */
  datatype Site = Site(
    prefix: nat, achieved: nat, child: Child, stage: Stage, reason: Reason, e: int, channel: bool, owned: bool)

  function ControlSite(prefix: nat, achieved: nat, child: Child, stage: Stage, event: Event): Site {
    match event
    case Input => Site(prefix, achieved, child, Protocol, ProtocolInput, 0, true, true)
    case Hangup => Site(prefix, achieved, child, Protocol, PeerClosed, 0, false, true)
    case Invalid => Site(prefix, achieved, child, stage, IoFailure, EBADF, false, true)
  }

  function QuietSite(prefix: nat, achieved: nat, child: Child, stage: Stage, quiet: Quiet): Option<Site> {
    match quiet
    case Silent => None
    case QuietPollFailed(e) => Some(Site(prefix, achieved, child, stage, IoFailure, e, true, true))
    case Noisy(event) => Some(ControlSite(prefix, achieved, child, stage, event))
  }

  function StartupSite(a: StartupAnswers): Option<Site> {
    if a.cgroupDescriptor.Fail? then
      Some(Site(0, 0, NoChild, DescriptorValidation, BadCgroupDescriptor, a.cgroupDescriptor.e, true, false))
    else if a.extraDescriptors.Fail? then
      Some(Site(0, 0, NoChild, DescriptorValidation, BadDescriptorLayout, a.extraDescriptors.e, true, true))
    else if a.cgroupFiles.Fail? then
      Some(Site(0, 0, NoChild, CgroupValidation, BadCgroupDescriptor, a.cgroupFiles.e, true, true))
    else if a.initialEvents.Fail? then
      Some(Site(0, 0, NoChild, CgroupValidation, BadCgroupDescriptor, a.initialEvents.e, true, true))
    else if a.initialProcs.Fail? then
      Some(Site(0, 0, NoChild, CgroupValidation, BadCgroupDescriptor, a.initialProcs.e, true, true))
    else if !a.initiallyEmpty then
      Some(Site(0, 0, NoChild, CgroupValidation, CgroupNotEmpty, 0, true, true))
    else if a.signalsAndSeccomp.Fail? then
      Some(Site(0, 0, NoChild, Startup, Internal, a.signalsAndSeccomp.e, true, true))
    else if a.helloSend.Fail? then
      Some(Site(0, 0, NoChild, Protocol, IoFailure, a.helloSend.e, true, true))
    else None
  }

  function CloneReason(e: Errno): Reason {
    if e == ENOSYS then Clone3Unavailable
    else if e in CLONE_RESOURCE_ERRNOS then ResourceExhausted
    else Clone3Rejected
  }

  function CloneSite(a: CloneAnswers): Option<Site> {
    if a.deadlineClock.Fail? then
      Some(Site(1, 0, NoChild, FixtureSetup, Internal, a.deadlineClock.e, true, true))
    else if a.quietSetup != Silent then QuietSite(1, 0, NoChild, FixtureSetup, a.quietSetup)
    else if a.pipe.Fail? then
      Some(Site(1, 0, NoChild, FixtureSetup, ResourceExhausted, a.pipe.e, true, true))
    else if a.clone.Fails? then
      Some(Site(1, 0, NoChild, Clone3, CloneReason(a.clone.e), a.clone.e, true, true))
    else if a.pidfd.Unusable? then
      Some(Site(1, 0x001, Live(a.pidfd.open), Clone3, PidfdUnavailable, a.pidfd.e, true, true))
    else if a.closeWriteEnd.Fails? then
      Some(Site(1, 0x003, Live(true), FixtureSetup, IoFailure, a.closeWriteEnd.e, true, true))
    else None
  }

  function ReadySite(a: ReadyAnswers): Option<Site> {
    match ReadyOf(a.ready, false)
    case ReadyExpired => Some(Site(1, 0x003, Live(true), Stage.ChildReady, Timeout, 0, true, true))
    case ReadyPollFailed(e) => Some(Site(1, 0x003, Live(true), Stage.ChildReady, IoFailure, e, true, true))
    case ReadyControl(event) => Some(ControlSite(1, 0x003, Live(true), Stage.ChildReady, event))
    case ReadyBad(c) => Some(Site(1, 0x003, Live(true), Stage.ChildReady, ChildSetupFailed, c, true, true))
    case ReadyDone =>
      match PopulatedOf(a.populated)
      case PopulatedExpired => Some(Site(1, 0x003, Live(true), Stage.ChildReady, Timeout, 0, true, true))
      case PopulatedPollFailed(e) => Some(Site(1, 0x003, Live(true), Stage.ChildReady, IoFailure, e, true, true))
      case PopulatedControl(event) => Some(ControlSite(1, 0x003, Live(true), Stage.ChildReady, event))
      case PopulatedUnreadable(s) => Some(Site(1, 0x003, Live(true), Stage.ChildReady, IoFailure, s, true, true))
      case PopulatedBad => Some(Site(1, 0x003, Live(true), Stage.ChildReady, ChildSetupFailed, 0, true, true))
      case PopulatedDone =>
        if a.readyProcs.Unreadable? then
          Some(Site(1, 0x003, Live(true), Stage.ChildReady, IoFailure, a.readyProcs.e, true, true))
        else if a.readyProcs.Mismatch? then
          Some(Site(1, 0x003, Live(true), Stage.ChildReady, ChildObservationFailed, 0, true, true))
        else if a.quietReady != Silent then QuietSite(1, 0x103, Live(true), Stage.ChildReady, a.quietReady)
        else if a.readySend.Fail? then
          Some(Site(1, 0x103, Live(true), Protocol, IoFailure, a.readySend.e, true, true))
        else None
  }

  function StopSite(a: StopAnswers): Option<Site> {
    if a.stopSignal.Fails? then
      Some(Site(2, 0x103, Live(true), PidfdSignal, PidfdSignalFailed, a.stopSignal.e, true, true))
    else
      match StopOf(a.stopWait)
      case StopExpired => Some(Site(2, 0x107, Live(true), PidfdSignal, Timeout, 0, true, true))
      case StopPollFailed(e) => Some(Site(2, 0x107, Live(true), PidfdSignal, IoFailure, e, true, true))
      case StopControl(event) => Some(ControlSite(2, 0x107, Live(true), PidfdSignal, event))
      case StopBad(s) => Some(Site(2, 0x107, Live(true), PidfdSignal, ChildObservationFailed, s, true, true))
      case StopDone =>
        if a.stoppedEvents.Fail? then
          Some(Site(2, 0x10F, Live(true), PidfdSignal, IoFailure, a.stoppedEvents.e, true, true))
        else if a.stoppedProcs.Unreadable? then
          Some(Site(2, 0x10F, Live(true), PidfdSignal, IoFailure, a.stoppedProcs.e, true, true))
        else if !a.stoppedPopulated || a.stoppedProcs.Mismatch? then
          Some(Site(2, 0x10F, Live(true), PidfdSignal, ChildObservationFailed, 0, true, true))
        else if a.quietSignal != Silent then QuietSite(2, 0x10F, Live(true), PidfdSignal, a.quietSignal)
        else if a.signaledSend.Fail? then
          Some(Site(2, 0x10F, Live(true), Protocol, IoFailure, a.signaledSend.e, true, true))
        else None
  }

  function ObservationSite(end: KilledWait): Option<Site> {
    match end
    case KilledExpired => Some(Site(3, 0x11F, Live(true), ChildObservation, Timeout, 0, true, true))
    case KilledPollFailed(e) => Some(Site(3, 0x11F, Live(true), ChildObservation, IoFailure, e, true, true))
    case KilledControl(event) => Some(ControlSite(3, 0x11F, Live(true), ChildObservation, event))
    case KilledUnreadable(s) => Some(Site(3, 0x11F, Live(true), ChildObservation, IoFailure, s, true, true))
    case KilledBad(e) => Some(Site(3, 0x11F, Live(true), ChildObservation, ChildObservationFailed, e, true, true))
    case KilledDone(true) => None
    case KilledDone(false) =>
      Some(Site(3, 0x11F, Live(true), ChildObservation, ChildObservationFailed, 0, true, true))
  }

  function KillSite(a: KillAnswers): Option<Site> {
    var observation := ObservationSite(KilledOf(a.killedWait, true, false, None));
    if a.quietKill != Silent then QuietSite(3, 0x10F, Live(true), CgroupKill, a.quietKill)
    else if a.kill.Fail? then
      Some(Site(3, 0x10F, Live(true), CgroupKill, CgroupKillFailed, a.kill.e, true, true))
    else if observation.Some? then observation
    else if a.quietObserved != Silent then QuietSite(3, 0x1BF, Live(true), ChildObservation, a.quietObserved)
    else if a.observedSend.Fail? then
      Some(Site(3, 0x1BF, Live(true), Protocol, IoFailure, a.observedSend.e, true, true))
    else None
  }

  function FinishSite(a: FinishAnswers): Option<Site> {
    if a.reap.Fail? then Some(Site(4, 0x1BF, Live(true), ChildReap, ChildReapFailed, a.reap.e, true, true))
    else if a.elapsed == 0 then Some(Site(4, 0x1FF, Reaped, Cleanup, Internal, 0, true, true))
    else if a.quietFinal != Silent then QuietSite(4, 0x1FF, Reaped, Cleanup, a.quietFinal)
    else if a.closeOwned.Fails? then
      Some(Site(4, 0x1FF, Reaped, Cleanup, CleanupIncomplete, a.closeOwned.e, true, false))
    else None
  }

  function FirstFailure(k: Kernel): Option<Site> {
    if StartupSite(k.startup).Some? then StartupSite(k.startup)
    else if CloneSite(k.cloning).Some? then CloneSite(k.cloning)
    else if ReadySite(k.readying).Some? then ReadySite(k.readying)
    else if StopSite(k.stopping).Some? then StopSite(k.stopping)
    else if KillSite(k.killing).Some? then KillSite(k.killing)
    else FinishSite(k.finishing)
  }

  // ---------------------------------------------------------------------------------------
  // From the first failure to the terminal record

  /** The emergency pass sees the child dead and the cgroup empty; the control socket is not watched. */
  predicate EmergencyObserves(f: FailureAnswers) {
    KilledOf(f.emergency.turns, false, false, None).KilledDone?
  }

  predicate EmergencyReaps(f: FailureAnswers, child: Child) {
    f.emergency.clock && child == Live(true) && EmergencyObserves(f) && f.emergency.reap
  }

  /** A failed reap returns before cgroup.events is read again. */
  predicate EmergencyRereads(f: FailureAnswers, child: Child) {
    && f.emergency.clock && child.Live?
    && (child.pidfdOpen && EmergencyObserves(f) ==> f.emergency.reap)
  }

  predicate EmergencyEmpty(f: FailureAnswers, child: Child) {
    EmergencyRereads(f, child) && f.emergency.emptyReread
  }

  predicate HasFlag(mask: nat, flag: nat)
    requires flag > 0
  {
    mask / flag % 2 == 1
  }

  function WithFlag(mask: nat, flag: nat): nat
    requires flag > 0
  {
    if HasFlag(mask, flag) then mask else mask + flag
  }

  /** The two cleanup flags of every mask a failing run can report. */
  lemma FlagTable()
    ensures forall mask :: mask in {
              0x000, 0x001, 0x003, 0x103, 0x107, 0x10F, 0x11F, 0x081, 0x083, 0x183, 0x187, 0x18F, 0x19F, 0x1BF}
              ==> !HasFlag(mask, CHILD_REAPED)
    ensures forall mask :: mask in {
              0x041, 0x043, 0x143, 0x147, 0x14F, 0x15F, 0x0C1, 0x0C3, 0x1C3, 0x1C7, 0x1CF, 0x1DF, 0x1FF}
              ==> HasFlag(mask, CHILD_REAPED)
    ensures forall mask :: mask in {
              0x000, 0x001, 0x003, 0x103, 0x107, 0x10F, 0x11F, 0x041, 0x043, 0x143, 0x147, 0x14F, 0x15F}
              ==> !HasFlag(mask, CGROUP_EMPTY)
    ensures forall mask :: mask in {
              0x081, 0x083, 0x183, 0x187, 0x18F, 0x19F, 0x1BF, 0x0C1, 0x0C3, 0x1C3, 0x1C7, 0x1CF, 0x1DF, 0x1FF}
              ==> HasFlag(mask, CGROUP_EMPTY)
  {
  }

  function TerminalMask(f: FailureAnswers, site: Site): nat {
    var reaped := if EmergencyReaps(f, site.child) then WithFlag(site.achieved, CHILD_REAPED) else site.achieved;
    if EmergencyEmpty(f, site.child) then WithFlag(reaped, CGROUP_EMPTY) else reaped
  }

  predicate ClosesFail(f: FailureAnswers, site: Site) {
    site.owned && f.closeAtFailure.Fails?
  }

  predicate CleanupFailed(f: FailureAnswers, site: Site) {
    || (site.child.Live? && !(EmergencyReaps(f, site.child) && EmergencyEmpty(f, site.child)))
    || ClosesFail(f, site)
  }

  datatype Terminal = Terminal(stage: Stage, reason: Reason, mask: nat, e: Stale)

  function TerminalOf(f: FailureAnswers, site: Site): Terminal {
    if CleanupFailed(f, site) then
      Terminal(Cleanup, CleanupIncomplete, TerminalMask(f, site),
               if ClosesFail(f, site) then f.closeAtFailure.e else 0)
    else Terminal(site.stage, site.reason, TerminalMask(f, site), WireErrno(site.e))
  }

  function ExitForReason(reason: Reason): nat {
    var code := ReasonCode(reason);
    if 1 <= code <= 8 then 64
    else if 9 <= code <= 10 then 65
    else if 11 <= code <= 19 || reason == IoFailure then 66
    else if reason == Timeout then 67
    else if reason == CleanupIncomplete then 68
    else 69
  }

  datatype Outcome = Outcome(frames: seq<Frame>, exit: nat)

  function Prefix(k: Kernel, n: nat): seq<Frame>
    requires n <= SUCCESS_LENGTH
  {
    SuccessPrefix(n, k.launcherPid, if n >= 2 then k.childPid else 0, if n == 5 then k.finishing.elapsed else 0)
  }

  function ErrorFrame(n: nat, t: Terminal): Frame {
    Frame(Error, n, Failed, t.stage, t.reason, t.e, t.mask, 0)
  }

  /** The frames sent and the exit code of one run. */
  function Run(k: Kernel): Outcome {
    if !k.clockStarts then Outcome([], 69)
    else if k.early.Some? then Outcome([], ExitForReason(k.early.value))
    else if FirstFailure(k).Some? then
      var site := FirstFailure(k).value;
      SitesAreBounded(k);
      var t := TerminalOf(k.failing, site);
      var sent := Prefix(k, site.prefix);
      if !site.channel then Outcome(sent, ExitForReason(t.reason))
      else if k.failing.errorSend.Fail? then
        Outcome(sent, if t.reason == CleanupIncomplete then 68 else 65)
      else Outcome(sent + [ErrorFrame(site.prefix, t)], ExitForReason(t.reason))
    else if k.finishing.finalSend.Fail? then Outcome(Prefix(k, 4), 65)
    else Outcome(Prefix(k, 5), 0)
  }

  /** The places a run can fail at: frames sent, flags achieved and state of the child. */
  predicate Placed(site: Site) {
    && (site.child.Live? ==> site.owned)
    && (match site.prefix
        case 0 => site.achieved == 0 && site.child == NoChild
        case 1 =>
          || (site.achieved == 0 && site.child == NoChild) || (site.achieved == 0x001 && site.child.Live?)
          || (site.achieved in {0x003, 0x103} && site.child == Live(true))
        case 2 => site.achieved in {0x103, 0x107, 0x10F} && site.child == Live(true)
        case 3 => site.achieved in {0x10F, 0x11F, 0x1BF} && site.child == Live(true)
        case 4 =>
          (site.achieved == 0x1BF && site.child == Live(true)) || (site.achieved == 0x1FF && site.child == Reaped)
        case _ => false)
  }

  lemma StartupPlaced(a: StartupAnswers)
    ensures StartupSite(a).Some? ==> Placed(StartupSite(a).value)
  {
    hide ReadyOf, PopulatedOf, StopOf, KilledOf;
  }

  lemma ClonePlaced(a: CloneAnswers)
    ensures CloneSite(a).Some? ==> Placed(CloneSite(a).value)
  {
    hide ReadyOf, PopulatedOf, StopOf, KilledOf;
  }

  lemma ReadyPlaced(a: ReadyAnswers)
    ensures ReadySite(a).Some? ==> Placed(ReadySite(a).value)
  {
    hide ReadyOf, PopulatedOf, StopOf, KilledOf;
  }

  lemma StopPlaced(a: StopAnswers)
    ensures StopSite(a).Some? ==> Placed(StopSite(a).value)
  {
    hide ReadyOf, PopulatedOf, StopOf, KilledOf;
  }

  lemma KillPlaced(a: KillAnswers)
    ensures KillSite(a).Some? ==> Placed(KillSite(a).value)
  {
    hide ReadyOf, PopulatedOf, StopOf, KilledOf;
  }

  lemma FinishPlaced(a: FinishAnswers)
    ensures FinishSite(a).Some? ==> Placed(FinishSite(a).value)
  {
    hide ReadyOf, PopulatedOf, StopOf, KilledOf;
  }

  lemma FirstFailurePlaced(k: Kernel)
    ensures FirstFailure(k).Some? ==> Placed(FirstFailure(k).value)
  {
    hide StartupSite, CloneSite, ReadySite, StopSite, KillSite, FinishSite, Placed;
    StartupPlaced(k.startup);
    ClonePlaced(k.cloning);
    ReadyPlaced(k.readying);
    StopPlaced(k.stopping);
    KillPlaced(k.killing);
    FinishPlaced(k.finishing);
  }

  lemma SitesAreBounded(k: Kernel)
    ensures FirstFailure(k).Some? ==>
              var site := FirstFailure(k).value;
              && site.prefix < SUCCESS_LENGTH && site.achieved <= ACHIEVED_MASK
              && (site.child.Live? ==> site.owned)
  {
    hide StartupSite, CloneSite, ReadySite, StopSite, KillSite, FinishSite, FirstFailure;
    FirstFailurePlaced(k);
  }

  // ---------------------------------------------------------------------------------------
  // The process itself, updating its runtime record step by step

  datatype Diagnosis = Diagnosis(stage: Stage, reason: Reason, e: int)

  class Process {
    const k: Kernel
    var sent: seq<Frame>
    var achieved: nat
    var controlUsable: bool
    var peerOpen: bool
    var cgroupUsable: bool
    var childCreated: bool
    var childReaped: bool
    var pidfdOpen: bool
    var failure: Option<Diagnosis>

    constructor (k: Kernel)
      ensures this.k == k && sent == [] && achieved == 0 && failure == None
      ensures !controlUsable && peerOpen && !cgroupUsable && !childCreated && !childReaped && !pidfdOpen
    {
      this.k := k;
      sent := [];
      achieved := 0;
      controlUsable, peerOpen, cgroupUsable := false, true, false;
      childCreated, childReaped, pidfdOpen := false, false, false;
      failure := None;
    }

    ghost function ChildState(): Child
      reads this
    {
      if !childCreated then NoChild else if childReaped then Reaped else Live(pidfdOpen)
    }

    /** Still on the success path, with `prefix` frames sent. */
    ghost predicate Running(prefix: nat, mask: nat, child: Child)
      reads this
    {
      && prefix <= SUCCESS_LENGTH && sent == Prefix(k, prefix)
      && failure == None && achieved == mask && ChildState() == child
      && controlUsable && peerOpen && cgroupUsable
    }

    /** Stopped at `site`, with the first diagnosis recorded. */
    ghost predicate StoppedAt(site: Site)
      reads this
    {
      && site.prefix < SUCCESS_LENGTH && sent == Prefix(k, site.prefix)
      && failure == Some(Diagnosis(site.stage, site.reason, site.e))
      && achieved == site.achieved && ChildState() == site.child
      && (controlUsable && peerOpen <==> site.channel)
      && (cgroupUsable <==> site.owned)
    }

    method SetFailure(stage: Stage, reason: Reason, e: int)
      modifies this`failure
      ensures failure == if old(failure).None? then Some(Diagnosis(stage, reason, e)) else old(failure)
    {
      if failure.None? {
        failure := Some(Diagnosis(stage, reason, e));
      }
    }

    method EmitFrame(frame: Frame, send: Check) returns (ok: bool)
      requires frame.sequence == |sent|
      modifies this`sent
      ensures ok <==> controlUsable && peerOpen && |old(sent)| < MAX_FRAMES && send.Pass?
      ensures sent == if ok then old(sent) + [frame] else old(sent)
    {
      if !controlUsable || !peerOpen || |sent| >= MAX_FRAMES || send.Fail? {
        return false;
      }
      sent := sent + [frame];
      return true;
    }

    method ControlFailed(event: Event, stage: Stage)
      requires failure.None?
      modifies this`failure, this`peerOpen, this`controlUsable
      ensures failure == Some(match event
                              case Input => Diagnosis(Protocol, ProtocolInput, 0)
                              case Hangup => Diagnosis(Protocol, PeerClosed, 0)
                              case Invalid => Diagnosis(stage, IoFailure, EBADF))
      ensures controlUsable == (old(controlUsable) && event != Invalid)
      ensures peerOpen == (old(peerOpen) && event == Input)
    {
      match event
      case Input =>
        SetFailure(Protocol, ProtocolInput, 0);
      case Hangup =>
        peerOpen := false;
        SetFailure(Protocol, PeerClosed, 0);
      case Invalid =>
        controlUsable := false;
        peerOpen := false;
        SetFailure(stage, IoFailure, EBADF);
    }

    method ControlQuiet(quiet: Quiet, stage: Stage, ghost prefix: nat) returns (ok: bool)
      requires prefix < SUCCESS_LENGTH && Running(prefix, achieved, ChildState())
      modifies this`failure, this`peerOpen, this`controlUsable
      ensures ok <==> quiet == Silent
      ensures ok ==> Running(prefix, achieved, ChildState())
      ensures !ok ==> QuietSite(prefix, achieved, ChildState(), stage, quiet).Some?
                      && StoppedAt(QuietSite(prefix, achieved, ChildState(), stage, quiet).value)
    {
      match quiet
      case Silent =>
        return true;
      case QuietPollFailed(e) =>
        SetFailure(stage, IoFailure, e);
        return false;
      case Noisy(event) =>
        ControlFailed(event, stage);
        return false;
    }

    method ValidateAndGreet() returns (ok: bool)
      requires sent == [] && achieved == 0 && failure.None? && controlUsable && peerOpen
      requires !cgroupUsable && !childCreated
      modifies this`sent, this`failure, this`cgroupUsable
      ensures ok <==> StartupSite(k.startup).None?
      ensures ok ==> Running(1, 0, NoChild)
      ensures !ok ==> StoppedAt(StartupSite(k.startup).value)
    {
      if k.startup.cgroupDescriptor.Fail? {
        SetFailure(DescriptorValidation, BadCgroupDescriptor, k.startup.cgroupDescriptor.e);
        return false;
      }
      cgroupUsable := true;
      if k.startup.extraDescriptors.Fail? {
        SetFailure(DescriptorValidation, BadDescriptorLayout, k.startup.extraDescriptors.e);
        return false;
      }
      if k.startup.cgroupFiles.Fail? {
        SetFailure(CgroupValidation, BadCgroupDescriptor, k.startup.cgroupFiles.e);
        return false;
      }
      if k.startup.initialEvents.Fail? {
        SetFailure(CgroupValidation, BadCgroupDescriptor, k.startup.initialEvents.e);
        return false;
      }
      if k.startup.initialProcs.Fail? {
        SetFailure(CgroupValidation, BadCgroupDescriptor, k.startup.initialProcs.e);
        return false;
      }
      if !k.startup.initiallyEmpty {
        SetFailure(CgroupValidation, CgroupNotEmpty, 0);
        return false;
      }
      if k.startup.signalsAndSeccomp.Fail? {
        SetFailure(Startup, Internal, k.startup.signalsAndSeccomp.e);
        return false;
      }
      ok := EmitFrame(Frame(Hello, |sent|, Good, Startup, NoReason, 0, k.launcherPid, 0), k.startup.helloSend);
      if !ok {
        SetFailure(Protocol, IoFailure, k.startup.helloSend.e);
        return;
      }
      PrefixGrows(k, 0);
    }

    method CloneFixture() returns (ok: bool)
      requires Running(1, 0, NoChild) && !childReaped
      modifies this
      ensures ok <==> CloneSite(k.cloning).None?
      ensures ok ==> Running(1, 0x003, Live(true))
      ensures !ok ==> StoppedAt(CloneSite(k.cloning).value)
    {
      if k.cloning.deadlineClock.Fail? {
        SetFailure(FixtureSetup, Internal, k.cloning.deadlineClock.e);
        return false;
      }
      ok := ControlQuiet(k.cloning.quietSetup, FixtureSetup, 1);
      if !ok {
        return;
      }
      if k.cloning.pipe.Fail? {
        SetFailure(FixtureSetup, ResourceExhausted, k.cloning.pipe.e);
        return false;
      }
      if k.cloning.clone.Fails? {
        var reason := Clone3Rejected;
        if k.cloning.clone.e == ENOSYS {
          reason := Clone3Unavailable;
        } else if k.cloning.clone.e in CLONE_RESOURCE_ERRNOS {
          reason := ResourceExhausted;
        }
        SetFailure(Clone3, reason, k.cloning.clone.e);
        return false;
      }
      childCreated := true;
      pidfdOpen := k.cloning.pidfd.Usable? || k.cloning.pidfd.open;
      achieved := WithFlag(achieved, CLONE3_INTO_CGROUP);
      if k.cloning.pidfd.Unusable? {
        SetFailure(Clone3, PidfdUnavailable, k.cloning.pidfd.e);
        return false;
      }
      achieved := WithFlag(achieved, PIDFD_CREATED);
      if k.cloning.closeWriteEnd.Fails? {
        SetFailure(FixtureSetup, IoFailure, k.cloning.closeWriteEnd.e);
        return false;
      }
      return true;
    }

    method WaitChildReady() returns (ok: bool)
      requires Running(1, 0x003, Live(true))
      modifies this
      ensures ok <==> ReadySite(k.readying).None?
      ensures ok ==> Running(2, 0x103, Live(true))
      ensures !ok ==> StoppedAt(ReadySite(k.readying).value)
    {
      hide ReadyOf, PopulatedOf, StopOf, KilledOf;
      ok := false;
      var ready := AwaitReady(k.readying.ready);
      match ready
      case ReadyExpired =>
        SetFailure(Stage.ChildReady, Timeout, 0);
        return;
      case ReadyPollFailed(e) =>
        SetFailure(Stage.ChildReady, IoFailure, e);
        return;
      case ReadyControl(event) =>
        ControlFailed(event, Stage.ChildReady);
        return;
      case ReadyBad(c) =>
        SetFailure(Stage.ChildReady, ChildSetupFailed, c);
        return;
      case ReadyDone =>
      var populated := AwaitPopulated(k.readying.populated);
      match populated
      case PopulatedExpired =>
        SetFailure(Stage.ChildReady, Timeout, 0);
        return;
      case PopulatedPollFailed(e) =>
        SetFailure(Stage.ChildReady, IoFailure, e);
        return;
      case PopulatedControl(event) =>
        ControlFailed(event, Stage.ChildReady);
        return;
      case PopulatedUnreadable(s) =>
        SetFailure(Stage.ChildReady, IoFailure, s);
        return;
      case PopulatedBad =>
        SetFailure(Stage.ChildReady, ChildSetupFailed, 0);
        return;
      case PopulatedDone =>
      if k.readying.readyProcs != Match {
        SetFailure(Stage.ChildReady,
                   if k.readying.readyProcs.Unreadable? then IoFailure else ChildObservationFailed,
                   if k.readying.readyProcs.Unreadable? then k.readying.readyProcs.e else 0);
        return;
      }
      achieved := WithFlag(achieved, BUILTIN_NOEXEC);
      ok := ControlQuiet(k.readying.quietReady, Stage.ChildReady, 1);
      if !ok {
        return;
      }
      ok := EmitFrame(Frame(FrameType.ChildReady, |sent|, Good, Stage.ChildReady, NoReason, 0, k.childPid, CLONE_FLAGS),
                      k.readying.readySend);
      if !ok {
        SetFailure(Protocol, IoFailure, k.readying.readySend.e);
        return;
      }
      PrefixGrows(k, 1);
    }

    method StopAndObserve() returns (ok: bool)
      requires Running(2, 0x103, Live(true))
      modifies this
      ensures ok <==> StopSite(k.stopping).None?
      ensures ok ==> Running(3, 0x10F, Live(true))
      ensures !ok ==> StoppedAt(StopSite(k.stopping).value)
    {
      hide ReadyOf, PopulatedOf, StopOf, KilledOf;
      ok := false;
      if k.stopping.stopSignal.Fails? {
        SetFailure(PidfdSignal, PidfdSignalFailed, k.stopping.stopSignal.e);
        return;
      }
      achieved := WithFlag(achieved, PIDFD_STOP_SENT);
      var stopped := AwaitStop(k.stopping.stopWait);
      match stopped
      case StopExpired =>
        SetFailure(PidfdSignal, Timeout, 0);
        return;
      case StopPollFailed(e) =>
        SetFailure(PidfdSignal, IoFailure, e);
        return;
      case StopControl(event) =>
        ControlFailed(event, PidfdSignal);
        return;
      case StopBad(s) =>
        SetFailure(PidfdSignal, ChildObservationFailed, s);
        return;
      case StopDone =>
      achieved := WithFlag(achieved, PIDFD_STOP_OBSERVED);
      if k.stopping.stoppedEvents.Fail? {
        SetFailure(PidfdSignal, IoFailure, k.stopping.stoppedEvents.e);
        return;
      }
      if k.stopping.stoppedProcs.Unreadable? {
        SetFailure(PidfdSignal, IoFailure, k.stopping.stoppedProcs.e);
        return;
      }
      if !k.stopping.stoppedPopulated || k.stopping.stoppedProcs != Match {
        SetFailure(PidfdSignal, ChildObservationFailed, 0);
        return;
      }
      ok := ControlQuiet(k.stopping.quietSignal, PidfdSignal, 2);
      if !ok {
        return;
      }
      ok := EmitFrame(Frame(ChildSignaled, |sent|, Good, PidfdSignal, NoReason, 0, CLD_STOPPED, SIGSTOP),
                      k.stopping.signaledSend);
      if !ok {
        SetFailure(Protocol, IoFailure, k.stopping.signaledSend.e);
        return;
      }
      PrefixGrows(k, 2);
    }

    method ObserveKilledAndEmpty() returns (ok: bool)
      requires Running(3, 0x11F, Live(true))
      modifies this
      ensures var site := ObservationSite(KilledOf(k.killing.killedWait, true, false, None));
              && (ok <==> site.None?)
              && (ok ==> Running(3, 0x1BF, Live(true)))
              && (!ok ==> StoppedAt(site.value))
    {
      hide ReadyOf, PopulatedOf, StopOf, KilledOf, Prefix;
      var killed := AwaitKilled(k.killing.killedWait, true);
      ok := false;
      match killed
      case KilledExpired =>
        SetFailure(ChildObservation, Timeout, 0);
      case KilledPollFailed(e) =>
        SetFailure(ChildObservation, IoFailure, e);
      case KilledControl(event) =>
        ControlFailed(event, ChildObservation);
      case KilledUnreadable(s) =>
        SetFailure(ChildObservation, IoFailure, s);
      case KilledBad(e) =>
        SetFailure(ChildObservation, ChildObservationFailed, e);
      case KilledDone(expected) =>
        if expected {
          achieved := WithFlag(achieved, PIDFD_EXIT_OBSERVED);
          achieved := WithFlag(achieved, CGROUP_EMPTY);
          ok := true;
        } else {
          SetFailure(ChildObservation, ChildObservationFailed, 0);
        }
    }

    method KillAndObserve() returns (ok: bool)
      requires Running(3, 0x10F, Live(true))
      modifies this
      ensures ok <==> KillSite(k.killing).None?
      ensures ok ==> Running(4, 0x1BF, Live(true))
      ensures !ok ==> StoppedAt(KillSite(k.killing).value)
    {
      hide ReadyOf, PopulatedOf, StopOf, KilledOf, ObservationSite;
      ok := ControlQuiet(k.killing.quietKill, CgroupKill, 3);
      if !ok {
        return;
      }
      if k.killing.kill.Fail? {
        SetFailure(CgroupKill, CgroupKillFailed, k.killing.kill.e);
        return false;
      }
      achieved := WithFlag(achieved, LIVE_CGROUP_KILL);
      ok := ObserveKilledAndEmpty();
      if !ok {
        return;
      }
      ok := ControlQuiet(k.killing.quietObserved, ChildObservation, 3);
      if !ok {
        return;
      }
      ok := EmitFrame(Frame(ChildObserved, |sent|, Good, ChildObservation, NoReason, 0, CLD_KILLED, SIGKILL),
                      k.killing.observedSend);
      if !ok {
        SetFailure(Protocol, IoFailure, k.killing.observedSend.e);
        return;
      }
      PrefixGrows(k, 3);
    }

    /** Everything from the reap to the last close, short of the final frame. */
    method Finish() returns (ok: bool)
      requires Running(4, 0x1BF, Live(true))
      modifies this
      ensures ok <==> FinishSite(k.finishing).None?
      ensures ok ==> sent == Prefix(k, 4) && achieved == ACHIEVED_MASK && controlUsable && peerOpen
      ensures !ok ==> StoppedAt(FinishSite(k.finishing).value)
    {
      if k.finishing.reap.Fail? {
        SetFailure(ChildReap, ChildReapFailed, k.finishing.reap.e);
        return false;
      }
      childReaped := true;
      achieved := WithFlag(achieved, CHILD_REAPED);
      if achieved != ACHIEVED_MASK || k.finishing.elapsed == 0 {
        SetFailure(Cleanup, Internal, 0);
        return false;
      }
      ok := ControlQuiet(k.finishing.quietFinal, Cleanup, 4);
      if !ok {
        return;
      }
      ok := CloseOwned(k.finishing.closeOwned);
      if !ok {
        SetFailure(Cleanup, CleanupIncomplete, k.finishing.closeOwned.e);
      }
    }

    method CloseOwned(close: Call) returns (ok: bool)
      modifies this`cgroupUsable, this`pidfdOpen
      ensures ok <==> !old(cgroupUsable) || close.Returns?
      ensures !cgroupUsable && !pidfdOpen
    {
      ok := !cgroupUsable || close.Returns?;
      cgroupUsable := false;
      pidfdOpen := false;
    }

    method EmergencyCleanup() returns (ok: bool)
      requires childCreated && !childReaped && cgroupUsable
      modifies this`achieved, this`childReaped
      ensures ok <==> EmergencyReaps(k.failing, old(ChildState())) && EmergencyEmpty(k.failing, old(ChildState()))
      ensures var (was, child) := (old(achieved), old(ChildState()));
              var reaped := if EmergencyReaps(k.failing, child) then WithFlag(was, CHILD_REAPED) else was;
              achieved == if EmergencyEmpty(k.failing, child) then WithFlag(reaped, CGROUP_EMPTY) else reaped
    {
      hide ReadyOf, PopulatedOf, StopOf, KilledOf;
      if !k.failing.emergency.clock {
        return false;
      }
      if pidfdOpen {
        var observed := AwaitKilled(k.failing.emergency.turns, false);
        if observed.KilledDone? {
          if !k.failing.emergency.reap {
            return false;
          }
          childReaped := true;
          achieved := WithFlag(achieved, CHILD_REAPED);
        }
      }
      var empty := k.failing.emergency.emptyReread;
      if empty {
        achieved := WithFlag(achieved, CGROUP_EMPTY);
      }
      return childReaped && empty;
    }

    method RunToExit() returns (exit: nat)
      requires sent == [] && achieved == 0 && failure.None? && !controlUsable && peerOpen
      requires !cgroupUsable && !childCreated && !childReaped
      modifies this
      ensures Outcome(sent, exit) == Run(k)
    {
      hide StartupSite, CloneSite, ReadySite, StopSite, KillSite, FinishSite, TerminalOf, ExitForReason, SuccessPrefix;
      SitesAreBounded(k);
      if !k.clockStarts {
        return 69;
      }
      if k.early.Some? {
        return ExitForReason(k.early.value);
      }
      controlUsable := true;
      var ok := ValidateAndGreet();
      if ok {
        ok := CloneFixture();
      }
      if ok {
        ok := WaitChildReady();
      }
      if ok {
        ok := StopAndObserve();
      }
      if ok {
        ok := KillAndObserve();
      }
      if ok {
        ok := Finish();
      }
      if ok {
        ok := EmitFrame(Frame(Final, |sent|, Good, Cleanup, NoReason, 0, achieved, k.finishing.elapsed),
                        k.finishing.finalSend);
        PrefixGrows(k, 4);
        return if ok then 0 else 65;
      }
      ghost var site := FirstFailure(k).value;
      assert StoppedAt(site);
      exit := Fail(site);
    }

    /** The failure path shared by every site. */
    method Fail(ghost site: Site) returns (exit: nat)
      requires StoppedAt(site) && (site.child.Live? ==> site.owned)
      modifies this
      ensures var t := TerminalOf(k.failing, site);
              Outcome(sent, exit)
              == if !site.channel then Outcome(Prefix(k, site.prefix), ExitForReason(t.reason))
                 else if k.failing.errorSend.Fail? then
                   Outcome(Prefix(k, site.prefix), if t.reason == CleanupIncomplete then 68 else 65)
                 else Outcome(Prefix(k, site.prefix) + [ErrorFrame(site.prefix, t)], ExitForReason(t.reason))
    {
      hide ReadyOf, PopulatedOf, StopOf, KilledOf, Prefix, HasFlag;
      PrefixLength(k, site.prefix);
      var incomplete, cleanupErrno: Stale := false, 0;
      if childCreated && !childReaped {
        var ok := EmergencyCleanup();
        incomplete := !ok;
      }
      var ok := CloseOwned(k.failing.closeAtFailure);
      if !ok {
        incomplete := true;
        cleanupErrno := k.failing.closeAtFailure.e;
      }
      if incomplete {
        failure := Some(Diagnosis(Cleanup, CleanupIncomplete, cleanupErrno));
      }
      var d := failure.value;
      exit := ExitForReason(d.reason);
      if controlUsable && peerOpen {
        ok := EmitFrame(Frame(Error, |sent|, Failed, d.stage, d.reason, WireErrno(d.e), achieved, 0),
                        k.failing.errorSend);
        if !ok && exit != 68 {
          exit := 65;
        }
      }
    }
  }

  lemma PrefixLength(k: Kernel, n: nat)
    requires n <= SUCCESS_LENGTH
    ensures |Prefix(k, n)| == n
  {
  }

  lemma PrefixGrows(k: Kernel, n: nat)
    requires n < SUCCESS_LENGTH
    ensures Prefix(k, n + 1)
         == Prefix(k, n) + [SuccessFrame(n, k.launcherPid, if n >= 1 then k.childPid else 0,
                                         if n == 4 then k.finishing.elapsed else 0)]
  {
  }

  // ---------------------------------------------------------------------------------------
  // Does the parser accept what the launcher sends?

  /** The terminal record of a failure at `site` is one the parser's error grammar lists. */
  predicate LegalAt(f: FailureAnswers, site: Site) {
    var t := TerminalOf(f, site);
    ErrorLegal(site.prefix, t.reason, t.stage, t.mask, t.e)
  }

  /** The run had already seen its cgroup empty when it failed, the emergency pass reaps the
      child, its last reading of cgroup.events does not say empty again, and every close
      succeeds. */
  predicate LostEmpty(f: FailureAnswers, site: Site) {
    && site.achieved == 0x1BF && EmergencyReaps(f, site.child)
    && !f.emergency.emptyReread && f.closeAtFailure.Returns?
  }

  /** A send or the kill write fell short, or the pipe got other descriptors, with no error
      number to report. */
  predicate FellShort(site: Site) {
    && site.e == 0
    && (|| (site.reason == IoFailure && site.stage == Protocol)
        || (site.reason == ResourceExhausted && site.stage == FixtureSetup)
        || site.reason == CgroupKillFailed)
  }

  /** Where launcher and parser disagree: the grammar wants a non-zero error number. */
  predicate GapAt(f: FailureAnswers, site: Site) {
    LostEmpty(f, site) || (FellShort(site) && !CleanupFailed(f, site))
  }

  // A failure ends in its own diagnosis when cleanup succeeds, and in the cleanup's when it does not.

  /** The mask of a live child's run once the child is reaped and its cgroup empty. */
  function Cleaned(mask: nat): nat {
    WithFlag(WithFlag(mask, CHILD_REAPED), CGROUP_EMPTY)
  }

  lemma MaskTable()
    ensures Cleaned(0x001) == 0x0C1 && Cleaned(0x003) == 0x0C3 && Cleaned(0x103) == 0x1C3 && Cleaned(0x107) == 0x1C7
    ensures Cleaned(0x10F) == 0x1CF && Cleaned(0x11F) == 0x1DF && Cleaned(0x1BF) == 0x1FF
  {
  }

  function CleanMask(site: Site): nat {
    if site.child.Live? then Cleaned(site.achieved) else site.achieved
  }

  lemma CleanEnd(f: FailureAnswers, site: Site)
    requires !CleanupFailed(f, site)
    ensures TerminalOf(f, site) == Terminal(site.stage, site.reason, CleanMask(site), WireErrno(site.e))
    ensures !LostEmpty(f, site)
  {
    hide HasFlag, EmergencyObserves;
  }

  /** The diagnosis of the failure itself is in the grammar. */
  predicate DiagnosisLegal(site: Site) {
    ErrorLegal(site.prefix, site.reason, site.stage, CleanMask(site), WireErrno(site.e))
  }

  /** Incomplete cleanup is in the grammar wherever it happens, except after a lost empty reading. */
  lemma UncleanIsLegal(f: FailureAnswers, site: Site)
    requires Placed(site) && CleanupFailed(f, site)
    ensures LegalAt(f, site) <==> !LostEmpty(f, site)
  {
    hide HasFlag, EmergencyObserves;
    FlagTable();
  }

  lemma SiteIsLegal(f: FailureAnswers, site: Site)
    requires Placed(site) && (DiagnosisLegal(site) <==> !FellShort(site))
    ensures LegalAt(f, site) <==> !GapAt(f, site)
  {
    hide CleanupFailed, LostEmpty, FellShort, Placed, ErrorLegal, TerminalMask, Cleaned;
    if CleanupFailed(f, site) {
      UncleanIsLegal(f, site);
    } else {
      CleanEnd(f, site);
    }
  }

  lemma StartupIsDiagnosed(a: StartupAnswers)
    requires StartupSite(a).Some?
    ensures DiagnosisLegal(StartupSite(a).value) <==> !FellShort(StartupSite(a).value)
  {
    hide ReadyOf, PopulatedOf, StopOf, KilledOf, Cleaned, Grammar1, Grammar2, Grammar3, Grammar4;
    MaskTable();
  }

  lemma CloneIsDiagnosed(a: CloneAnswers)
    requires CloneSite(a).Some? && CloneSite(a).value.channel
    ensures DiagnosisLegal(CloneSite(a).value) <==> !FellShort(CloneSite(a).value)
  {
    hide ReadyOf, PopulatedOf, StopOf, KilledOf, Cleaned, Grammar0, Grammar2, Grammar3, Grammar4;
    MaskTable();
  }

  lemma ReadyIsDiagnosed(a: ReadyAnswers)
    requires ReadySite(a).Some? && ReadySite(a).value.channel
    ensures DiagnosisLegal(ReadySite(a).value) <==> !FellShort(ReadySite(a).value)
  {
    hide ReadyOf, PopulatedOf, StopOf, KilledOf, Cleaned, Grammar0, Grammar2, Grammar3, Grammar4;
    MaskTable();
  }

  lemma StopIsDiagnosed(a: StopAnswers)
    requires StopSite(a).Some? && StopSite(a).value.channel
    ensures DiagnosisLegal(StopSite(a).value) <==> !FellShort(StopSite(a).value)
  {
    hide ReadyOf, PopulatedOf, StopOf, KilledOf, Cleaned, Grammar0, Grammar1, Grammar3, Grammar4;
    MaskTable();
  }

  lemma KillIsDiagnosed(a: KillAnswers)
    requires KillSite(a).Some? && KillSite(a).value.channel
    ensures DiagnosisLegal(KillSite(a).value) <==> !FellShort(KillSite(a).value)
  {
    hide ReadyOf, PopulatedOf, StopOf, KilledOf, Cleaned, Grammar0, Grammar1, Grammar2, Grammar4;
    MaskTable();
  }

  lemma FinishIsDiagnosed(a: FinishAnswers)
    requires FinishSite(a).Some? && FinishSite(a).value.channel
    ensures DiagnosisLegal(FinishSite(a).value) <==> !FellShort(FinishSite(a).value)
  {
    hide ReadyOf, PopulatedOf, StopOf, KilledOf, Cleaned, Grammar0, Grammar1, Grammar2, Grammar3;
    MaskTable();
  }

  lemma FirstFailureIsLegal(k: Kernel)
    requires FirstFailure(k).Some? && FirstFailure(k).value.channel
    ensures LegalAt(k.failing, FirstFailure(k).value) <==> !GapAt(k.failing, FirstFailure(k).value)
  {
    hide StartupSite, CloneSite, ReadySite, StopSite, KillSite, FinishSite, LegalAt, GapAt, DiagnosisLegal, Placed;
    if StartupSite(k.startup).Some? {
      StartupIsDiagnosed(k.startup);
    } else if CloneSite(k.cloning).Some? {
      CloneIsDiagnosed(k.cloning);
    } else if ReadySite(k.readying).Some? {
      ReadyIsDiagnosed(k.readying);
    } else if StopSite(k.stopping).Some? {
      StopIsDiagnosed(k.stopping);
    } else if KillSite(k.killing).Some? {
      KillIsDiagnosed(k.killing);
    } else {
      FinishIsDiagnosed(k.finishing);
    }
    FirstFailurePlaced(k);
    SiteIsLegal(k.failing, FirstFailure(k).value);
  }

  /** The run got as far as its terminal record and that record was sent. */
  predicate Delivered(k: Kernel) {
    && k.clockStarts && k.early.None?
    && (if FirstFailure(k).Some? then FirstFailure(k).value.channel && k.failing.errorSend.Pass?
        else k.finishing.finalSend.Pass?)
  }

  predicate Gap(k: Kernel) {
    FirstFailure(k).Some? && GapAt(k.failing, FirstFailure(k).value)
  }

  lemma PrefixIsValid(k: Kernel, n: nat)
    requires Sane(k) && n <= SUCCESS_LENGTH && (n == SUCCESS_LENGTH ==> k.finishing.elapsed > 0)
    ensures Numbered(Prefix(k, n))
    ensures forall i :: 0 <= i < n ==> SuccessFrameValid(Prefix(k, n)[i], i, k.launcherPid)
    ensures forall f :: f in Prefix(k, n) ==> f.frameType != Error
  {
  }

  /** A success prefix alone is accepted only when it is the whole success run. */
  lemma PrefixAlone(k: Kernel, n: nat, exit: nat)
    requires Sane(k) && n <= SUCCESS_LENGTH && (n == SUCCESS_LENGTH ==> k.finishing.elapsed > 0)
    ensures Parse(SentAll(Prefix(k, n)), exit, true, k.launcherPid).Ok? <==> n == SUCCESS_LENGTH && exit == 0
  {
    hide SuccessFrameValid, ErrorFrameExit, Parse, InRange, SuccessPrefix;
    PrefixIsValid(k, n);
    ParseOfSent(Prefix(k, n), exit, k.launcherPid);
  }

  /** A success prefix and one error record are accepted when the error is grammar-legal. */
  lemma PrefixAndError(k: Kernel, n: nat, t: Terminal)
    requires Sane(k) && n < SUCCESS_LENGTH && t.mask <= 2 * ACHIEVED_MASK
    ensures Parse(SentAll(Prefix(k, n) + [ErrorFrame(n, t)]), ExitForReason(t.reason), true, k.launcherPid).Ok?
            <==> ErrorLegal(n, t.reason, t.stage, t.mask, t.e)
  {
    hide SuccessFrameValid, Parse, SuccessPrefix, GrammarAllows, ErrnoLegal;
    var exit := ExitForReason(t.reason);
    var frames := Prefix(k, n) + [ErrorFrame(n, t)];
    PrefixIsValid(k, n);
    ParseOfSent(frames, exit, k.launcherPid);
    if GrammarAllows(n, t.reason, t.stage, t.mask) {
      MasksAreSmall(n, t.reason, t.stage, t.mask);
    }
    assert frames[|frames| - 1] == ErrorFrame(n, t);
    assert ErrorFrameExit(ErrorFrame(n, t), n, exit).Ok? <==> ErrorLegal(n, t.reason, t.stage, t.mask, t.e);
    assert forall i :: 0 <= i < n ==> frames[i] == Prefix(k, n)[i];
  }

  /** The parser accepts a run of the launcher exactly when its terminal record was delivered
      and the run is not in the gap. */
  lemma ParserAcceptsRun(k: Kernel)
    requires Sane(k)
    ensures Parse(SentAll(Run(k).frames), Run(k).exit, true, k.launcherPid).Ok? <==> Delivered(k) && !Gap(k)
  {
    hide StartupSite, CloneSite, ReadySite, StopSite, KillSite, LegalAt, GapAt, TerminalMask, SuccessPrefix, Parse;
    if k.clockStarts && k.early.None? && FirstFailure(k).Some? {
      var site := FirstFailure(k).value;
      SitesAreBounded(k);
      if site.channel && k.failing.errorSend.Pass? {
        FirstFailureIsLegal(k);
        TerminalMaskIsSmall(k.failing, site);
        PrefixAndError(k, site.prefix, TerminalOf(k.failing, site));
        LegalAtUnfolds(k.failing, site);
      } else {
        PrefixAlone(k, site.prefix, Run(k).exit);
      }
    } else if k.clockStarts && k.early.None? {
      PrefixAlone(k, if k.finishing.finalSend.Fail? then 4 else 5, Run(k).exit);
    } else {
      assert Run(k).frames == Prefix(k, 0);
      PrefixAlone(k, 0, Run(k).exit);
    }
  }

  lemma TerminalMaskIsSmall(f: FailureAnswers, site: Site)
    requires site.achieved <= ACHIEVED_MASK
    ensures TerminalOf(f, site).mask <= 2 * ACHIEVED_MASK
  {
  }

  lemma LegalAtUnfolds(f: FailureAnswers, site: Site)
    ensures var t := TerminalOf(f, site);
            LegalAt(f, site) <==> ErrorLegal(site.prefix, t.reason, t.stage, t.mask, t.e)
  {
  }

  const NO_TROUBLE: Kernel := Kernel(
    2, 3, true, None,
    StartupAnswers(Pass, Pass, Pass, Pass, Pass, true, Pass, Pass),
    CloneAnswers(Pass, Silent, Pass, Returns, Usable, Returns),
    ReadyAnswers(ReadyTurnsFor(ReadyDone), PopulatedTurnsFor(PopulatedDone), Match, Silent, Pass),
    StopAnswers(Returns, StopTurnsFor(StopDone), Pass, true, Match, Silent, Pass),
    KillAnswers(Silent, Pass, KilledTurnsFor(KilledDone(true)), Silent, Pass),
    FinishAnswers(Pass, 1, Silent, Returns, Pass),
    FailureAnswers(Emergency(true, KilledTurnsFor(KilledDone(true)), true, true), Returns, Pass))

  /** A run in the gap: the child is observed dead and the cgroup empty, the parent then writes
      to the control socket, and the emergency pass cannot read cgroup.events once more. */
  lemma GapIsReachable()
    ensures var k := NO_TROUBLE.(killing := LATE_INPUT, failing := LOST_REREAD);
            && Sane(k) && Delivered(k)
            && Run(k) == Outcome(Prefix(k, 3) + [Frame(Error, 3, Failed, Cleanup, CleanupIncomplete, 0, 0x1FF, 0)], 68)
            && Parse(SentAll(Run(k).frames), Run(k).exit, true, k.launcherPid).Rejected?
  {
    hide ReadyOf, PopulatedOf, StopOf, KilledOf,
         ReadyTurnsFor, PopulatedTurnsFor, StopTurnsFor, KilledTurnsFor;
    hide Parse;
    var k := NO_TROUBLE.(killing := LATE_INPUT, failing := LOST_REREAD);
    ParserAcceptsRun(k);
  }

  /** A run in the other part of the gap: the hello frame is cut short, and no error number says
      why. The code tests for this, although a send on a sequenced-packet socket is whole. */
  lemma ShortSendIsReachable()
    ensures var k := NO_TROUBLE.(startup := NO_TROUBLE.startup.(helloSend := Fail(0)));
            && Sane(k) && Delivered(k)
            && Run(k).frames == [Frame(Error, 0, Failed, Protocol, IoFailure, 0, 0, 0)] && Run(k).exit == 66
            && Parse(SentAll(Run(k).frames), Run(k).exit, true, k.launcherPid).Rejected?
  {
    hide ReadyOf, PopulatedOf, StopOf, KilledOf;
    hide Parse;
    var k := NO_TROUBLE.(startup := NO_TROUBLE.startup.(helloSend := Fail(0)));
    ParserAcceptsRun(k);
  }

  const LATE_INPUT: KillAnswers := NO_TROUBLE.killing.(quietObserved := Noisy(Input))
  const LOST_REREAD: FailureAnswers :=
    NO_TROUBLE.failing.(emergency := NO_TROUBLE.failing.emergency.(emptyReread := false))

  // ---------------------------------------------------------------------------------------
  // Is everything the parser accepts something the launcher can send?

  /** A failure at `site` ends in the error record `t` after `prefix` success frames. */
  predicate EndsIn(f: FailureAnswers, site: Option<Site>, prefix: nat, t: Terminal) {
    && f.errorSend.Pass?
    && site.Some? && site.value.channel && site.value.prefix == prefix && TerminalOf(f, site.value) == t
  }

  function CallFor(e: Stale): Call {
    if e == 0 then Returns else Fails(e)
  }

  function PollFor(e: Stale): Quiet {
    if e == 0 then Silent else QuietPollFailed(e)
  }

  /** The emergency pass and the closes going as `t` reports them. */
  function FailingFor(t: Terminal): FailureAnswers {
    if t.reason != CleanupIncomplete then NO_TROUBLE.failing
    else
      var reaped := HasFlag(t.mask, CHILD_REAPED);
      var turns := KilledTurnsFor(if reaped then KilledDone(true) else KilledExpired);
      FailureAnswers(Emergency(true, turns, reaped, HasFlag(t.mask, CGROUP_EMPTY)), CallFor(t.e), Pass)
  }

  function StartupFor(t: Terminal): StartupAnswers {
    var a := NO_TROUBLE.startup;
    match t.reason
    case BadDescriptorLayout => a.(extraDescriptors := Fail(t.e))
    case BadCgroupDescriptor =>
      if t.stage == DescriptorValidation then a.(cgroupDescriptor := Fail(t.e)) else a.(cgroupFiles := Fail(t.e))
    case Internal => a.(signalsAndSeccomp := Fail(t.e))
    case IoFailure => a.(helloSend := Fail(t.e))
    case _ => a.(initiallyEmpty := false)
  }

  function CloneFor(t: Terminal): CloneAnswers {
    var a := NO_TROUBLE.cloning;
    match t.reason
    case Internal => a.(deadlineClock := Fail(t.e))
    case ResourceExhausted => if t.stage == FixtureSetup then a.(pipe := Fail(t.e)) else a.(clone := CallFor(t.e))
    case Clone3Unavailable => a.(clone := CallFor(t.e))
    case Clone3Rejected => a.(clone := CallFor(t.e))
    case PidfdUnavailable => a.(pidfd := Unusable(true, t.e))
    case IoFailure => if t.mask == 0x000 then a.(quietSetup := PollFor(t.e)) else a.(closeWriteEnd := CallFor(t.e))
    case CleanupIncomplete =>
      if t.mask == 0x000 then a.(quietSetup := Noisy(Input)) else a.(pidfd := Unusable(true, 0))
    case _ => a.(quietSetup := Noisy(Input))
  }

  function ReadyFor(t: Terminal): ReadyAnswers {
    var a := NO_TROUBLE.readying;
    match t.reason
    case ChildSetupFailed => a.(ready := ReadyTurnsFor(ReadyBad(t.e)))
    case ChildObservationFailed => a.(readyProcs := Mismatch)
    case Timeout => a.(ready := ReadyTurnsFor(ReadyExpired))
    case ProtocolInput =>
      if t.mask == 0x0C3 then a.(ready := ReadyTurnsFor(ReadyControl(Input))) else a.(quietReady := Noisy(Input))
    case IoFailure =>
      if t.stage == Protocol then a.(readySend := Fail(t.e))
      else if t.mask == 0x0C3 then a.(populated := PopulatedTurnsFor(PopulatedUnreadable(t.e)))
      else a.(quietReady := PollFor(t.e))
    case _ =>
      if t.mask in {0x003, 0x043, 0x083, 0x0C3} then a.(ready := ReadyTurnsFor(ReadyExpired))
      else a.(quietReady := Noisy(Input))
  }

  function StopFor(t: Terminal): StopAnswers {
    var a := NO_TROUBLE.stopping;
    match t.reason
    case PidfdSignalFailed => a.(stopSignal := CallFor(t.e))
    case ChildObservationFailed =>
      if t.mask == 0x1C7 then a.(stopWait := StopTurnsFor(StopBad(t.e))) else a.(stoppedProcs := Mismatch)
    case Timeout => a.(stopWait := StopTurnsFor(StopExpired))
    case ProtocolInput =>
      if t.mask == 0x1C7 then a.(stopWait := StopTurnsFor(StopControl(Input))) else a.(quietSignal := Noisy(Input))
    case IoFailure =>
      if t.stage == Protocol then a.(signaledSend := Fail(t.e))
      else if t.mask == 0x1CF then a.(stoppedEvents := Fail(t.e))
      else a.(stopWait := StopTurnsFor(StopPollFailed(if t.e == 0 then 1 else t.e)))
    case _ =>
      if t.mask in {0x103, 0x143, 0x183, 0x1C3} then a.(stopSignal := Fails(1))
      else if t.mask in {0x107, 0x147, 0x187, 0x1C7} then a.(stopWait := StopTurnsFor(StopExpired))
      else a.(quietSignal := Noisy(Input))
  }

  function KillFor(t: Terminal): KillAnswers {
    var a := NO_TROUBLE.killing;
    match t.reason
    case CgroupKillFailed => a.(kill := Fail(t.e))
    case ChildObservationFailed =>
      a.(killedWait := KilledTurnsFor(if t.e == 0 then KilledDone(false) else KilledBad(t.e)))
    case Timeout => a.(killedWait := KilledTurnsFor(KilledExpired))
    case ProtocolInput =>
      if t.mask == 0x1CF then a.(quietKill := Noisy(Input))
      else if t.mask == 0x1DF then a.(killedWait := KilledTurnsFor(KilledControl(Input)))
      else a.(quietObserved := Noisy(Input))
    case IoFailure =>
      if t.stage == CgroupKill then a.(quietKill := PollFor(t.e))
      else if t.stage == Protocol then a.(observedSend := Fail(t.e))
      else if t.mask == 0x1DF then a.(killedWait := KilledTurnsFor(KilledUnreadable(t.e)))
      else a.(quietObserved := PollFor(t.e))
    case _ =>
      if t.mask in {0x10F, 0x14F, 0x18F, 0x1CF} then a.(quietKill := Noisy(Input))
      else if t.mask in {0x11F, 0x15F, 0x19F, 0x1DF} then a.(killedWait := KilledTurnsFor(KilledExpired))
      else a.(quietObserved := Noisy(Input))
  }

  function FinishFor(t: Terminal): FinishAnswers {
    var a := NO_TROUBLE.finishing;
    match t.reason
    case ChildReapFailed => a.(reap := Fail(t.e))
    case Internal => a.(elapsed := 0)
    case ProtocolInput => a.(quietFinal := Noisy(Input))
    case IoFailure => a.(quietFinal := PollFor(t.e))
    case _ => if t.mask == 0x1BF then a.(reap := Fail(1)) else a.(closeOwned := CallFor(t.e))
  }

  /** With no trouble in cleanup a failure ends in its own diagnosis. */
  lemma NoTroubleCleans(site: Option<Site>)
    ensures site.Some? && (site.value.child.Live? ==> site.value.child.pidfdOpen) ==>
              && !CleanupFailed(NO_TROUBLE.failing, site.value)
              && TerminalOf(NO_TROUBLE.failing, site.value)
              == Terminal(site.value.stage, site.value.reason, CleanMask(site.value), WireErrno(site.value.e))
  {
    hide HasFlag, KilledOf, KilledTurnsFor;
  }

  lemma Reach0(t: Terminal)
    requires ErrorLegal(0, t.reason, t.stage, t.mask, t.e)
    ensures EndsIn(FailingFor(t), StartupSite(StartupFor(t)), 0, t)
  {
    hide ReadyOf, PopulatedOf, StopOf, KilledOf,
         ReadyTurnsFor, PopulatedTurnsFor, StopTurnsFor, KilledTurnsFor;
    hide HasFlag, Grammar1, Grammar2, Grammar3, Grammar4;
    FlagTable();
  }

  /** Failures before the child runs, as opposed to while it gets ready. */
  predicate InCloning(t: Terminal) {
    || t.reason in {Internal, ResourceExhausted, Clone3Unavailable, Clone3Rejected, PidfdUnavailable}
    || (t.reason in {ProtocolInput, CleanupIncomplete} && t.mask in {0x000, 0x001, 0x041, 0x081, 0x0C1})
    || (t.reason == IoFailure && t.stage == FixtureSetup)
  }

  lemma Reach1CloningDiagnosed(t: Terminal)
    requires ErrorLegal(1, t.reason, t.stage, t.mask, t.e) && InCloning(t) && t.reason != CleanupIncomplete
    ensures EndsIn(FailingFor(t), CloneSite(CloneFor(t)), 1, t)
  {
    hide ReadyOf, PopulatedOf, StopOf, KilledOf, ReadyTurnsFor, PopulatedTurnsFor, StopTurnsFor, KilledTurnsFor;
    hide Cleaned, TerminalOf, CleanupFailed, Grammar0, Grammar2, Grammar3, Grammar4;
    MaskTable();
    NoTroubleCleans(CloneSite(CloneFor(t)));
  }

  lemma Reach1CloningUnclean(t: Terminal)
    requires ErrorLegal(1, t.reason, t.stage, t.mask, t.e) && InCloning(t) && t.reason == CleanupIncomplete
    ensures EndsIn(FailingFor(t), CloneSite(CloneFor(t)), 1, t)
  {
    hide ReadyOf, PopulatedOf, StopOf, KilledOf,
         ReadyTurnsFor, PopulatedTurnsFor, StopTurnsFor, KilledTurnsFor;
    hide HasFlag, Grammar0, Grammar2, Grammar3, Grammar4;
    FlagTable();
  }

  lemma Reach1ReadyingDiagnosed(t: Terminal)
    requires ErrorLegal(1, t.reason, t.stage, t.mask, t.e) && !InCloning(t) && t.reason != CleanupIncomplete
    ensures EndsIn(FailingFor(t), ReadySite(ReadyFor(t)), 1, t)
  {
    hide ReadyOf, PopulatedOf, StopOf, KilledOf, ReadyTurnsFor, PopulatedTurnsFor, StopTurnsFor, KilledTurnsFor;
    hide Cleaned, TerminalOf, CleanupFailed, Grammar0, Grammar2, Grammar3, Grammar4;
    MaskTable();
    NoTroubleCleans(ReadySite(ReadyFor(t)));
  }

  lemma Reach1ReadyingUnclean(t: Terminal)
    requires ErrorLegal(1, t.reason, t.stage, t.mask, t.e) && !InCloning(t) && t.reason == CleanupIncomplete
    ensures EndsIn(FailingFor(t), ReadySite(ReadyFor(t)), 1, t)
  {
    hide ReadyOf, PopulatedOf, StopOf, KilledOf,
         ReadyTurnsFor, PopulatedTurnsFor, StopTurnsFor, KilledTurnsFor;
    hide HasFlag, Grammar0, Grammar2, Grammar3, Grammar4;
    FlagTable();
  }

  lemma Reach2Diagnosed(t: Terminal)
    requires ErrorLegal(2, t.reason, t.stage, t.mask, t.e) && t.reason != CleanupIncomplete
    ensures EndsIn(FailingFor(t), StopSite(StopFor(t)), 2, t)
  {
    hide ReadyOf, PopulatedOf, StopOf, KilledOf, ReadyTurnsFor, PopulatedTurnsFor, StopTurnsFor, KilledTurnsFor;
    hide Cleaned, TerminalOf, CleanupFailed, Grammar0, Grammar1, Grammar3, Grammar4;
    MaskTable();
    NoTroubleCleans(StopSite(StopFor(t)));
  }

  lemma Reach2Unclean(t: Terminal)
    requires ErrorLegal(2, t.reason, t.stage, t.mask, t.e) && t.reason == CleanupIncomplete
    ensures EndsIn(FailingFor(t), StopSite(StopFor(t)), 2, t)
  {
    hide ReadyOf, PopulatedOf, StopOf, KilledOf,
         ReadyTurnsFor, PopulatedTurnsFor, StopTurnsFor, KilledTurnsFor;
    hide HasFlag, Grammar0, Grammar1, Grammar3, Grammar4;
    FlagTable();
  }

  lemma Reach3Diagnosed(t: Terminal)
    requires ErrorLegal(3, t.reason, t.stage, t.mask, t.e) && t.reason != CleanupIncomplete
    ensures EndsIn(FailingFor(t), KillSite(KillFor(t)), 3, t)
  {
    hide ReadyOf, PopulatedOf, StopOf, KilledOf, ReadyTurnsFor, PopulatedTurnsFor, StopTurnsFor, KilledTurnsFor;
    hide Cleaned, TerminalOf, CleanupFailed, Grammar0, Grammar1, Grammar2, Grammar4;
    MaskTable();
    NoTroubleCleans(KillSite(KillFor(t)));
  }

  lemma Reach3Unclean(t: Terminal)
    requires ErrorLegal(3, t.reason, t.stage, t.mask, t.e) && t.reason == CleanupIncomplete
    ensures EndsIn(FailingFor(t), KillSite(KillFor(t)), 3, t)
  {
    hide ReadyOf, PopulatedOf, StopOf, KilledOf,
         ReadyTurnsFor, PopulatedTurnsFor, StopTurnsFor, KilledTurnsFor;
    hide HasFlag, Grammar0, Grammar1, Grammar2, Grammar4;
    FlagTable();
  }

  lemma Reach4Diagnosed(t: Terminal)
    requires ErrorLegal(4, t.reason, t.stage, t.mask, t.e) && t.reason != CleanupIncomplete
    ensures EndsIn(FailingFor(t), FinishSite(FinishFor(t)), 4, t)
  {
    hide ReadyOf, PopulatedOf, StopOf, KilledOf, ReadyTurnsFor, PopulatedTurnsFor, StopTurnsFor, KilledTurnsFor;
    hide Cleaned, TerminalOf, CleanupFailed, Grammar0, Grammar1, Grammar2, Grammar3;
    MaskTable();
    NoTroubleCleans(FinishSite(FinishFor(t)));
  }

  lemma Reach4Unclean(t: Terminal)
    requires ErrorLegal(4, t.reason, t.stage, t.mask, t.e) && t.reason == CleanupIncomplete
    ensures EndsIn(FailingFor(t), FinishSite(FinishFor(t)), 4, t)
  {
    hide ReadyOf, PopulatedOf, StopOf, KilledOf,
         ReadyTurnsFor, PopulatedTurnsFor, StopTurnsFor, KilledTurnsFor;
    hide HasFlag, Grammar0, Grammar1, Grammar2, Grammar3;
    FlagTable();
  }

  /** With no trouble anywhere no phase fails. */
  lemma NoSiteWithoutTrouble()
    ensures StartupSite(NO_TROUBLE.startup).None? && CloneSite(NO_TROUBLE.cloning).None?
    ensures ReadySite(NO_TROUBLE.readying).None? && StopSite(NO_TROUBLE.stopping).None?
    ensures KillSite(NO_TROUBLE.killing).None? && FinishSite(NO_TROUBLE.finishing).None?
  {
    hide ReadyOf, PopulatedOf, StopOf, KilledOf;
  }

  lemma ReachTerminal(pid: nat, childPid: nat, prefix: nat, t: Terminal) returns (k: Kernel)
    requires ErrorLegal(prefix, t.reason, t.stage, t.mask, t.e)
    ensures k.launcherPid == pid && k.childPid == childPid && k.clockStarts && k.early.None?
    ensures EndsIn(k.failing, FirstFailure(k), prefix, t)
  {
    hide EndsIn, ErrnoLegal, Grammar0, Grammar1, Grammar2, Grammar3, Grammar4;
    hide StartupSite, CloneSite, ReadySite, StopSite, KillSite, FinishSite;
    hide StartupFor, CloneFor, ReadyFor, StopFor, KillFor, FinishFor, FailingFor;
    NoSiteWithoutTrouble();
    SomeSite(t);
    k := NO_TROUBLE.(launcherPid := pid, childPid := childPid, failing := FailingFor(t));
    if prefix == 0 {
      Reach0(t);
      k := k.(startup := StartupFor(t));
    } else if prefix == 1 && InCloning(t) {
      if t.reason == CleanupIncomplete {
        Reach1CloningUnclean(t);
      } else {
        Reach1CloningDiagnosed(t);
      }
      k := k.(cloning := CloneFor(t));
    } else if prefix == 1 {
      if t.reason == CleanupIncomplete {
        Reach1ReadyingUnclean(t);
      } else {
        Reach1ReadyingDiagnosed(t);
      }
      k := k.(readying := ReadyFor(t));
    } else if prefix == 2 {
      if t.reason == CleanupIncomplete {
        Reach2Unclean(t);
      } else {
        Reach2Diagnosed(t);
      }
      k := k.(stopping := StopFor(t));
    } else if prefix == 3 {
      if t.reason == CleanupIncomplete {
        Reach3Unclean(t);
      } else {
        Reach3Diagnosed(t);
      }
      k := k.(killing := KillFor(t));
    } else {
      if t.reason == CleanupIncomplete {
        Reach4Unclean(t);
      } else {
        Reach4Diagnosed(t);
      }
      k := k.(finishing := FinishFor(t));
    }
  }

  lemma SomeSite(t: Terminal)
    ensures forall f, site, prefix :: EndsIn(f, site, prefix, t) ==> site.Some?
  {
  }

  /** The grammar is exact: every transcript the parser accepts is sent by some run. */
  lemma EveryLegalScriptIsSent(script: Script, pid: nat) returns (k: Kernel)
    requires 1 <= pid <= MAX_PID && LegalScript(script, pid)
    ensures Sane(k) && k.launcherPid == pid
    ensures Run(k).frames == ScriptFrames(script, pid) && ScriptExit(script) == Ok(Run(k).exit)
  {
    hide StartupSite, CloneSite, ReadySite, StopSite, KillSite, FinishSite, TerminalOf, ErrorLegal;
    match script
    case Success(childPid, elapsed) =>
      NoSiteWithoutTrouble();
      LongerRun(elapsed);
      k := NO_TROUBLE.(launcherPid := pid, childPid := childPid,
                       finishing := NO_TROUBLE.finishing.(elapsed := elapsed));
    case Failure(prefix, childPid, reason, stage, mask, e) =>
      var child := if prefix >= 2 then childPid else if pid == 1 then 2 else 1;
      LegalErrno(prefix, reason, stage, mask, e);
      k := ReachTerminal(pid, child, prefix, Terminal(stage, reason, mask, e));
      SitesAreBounded(k);
  }

  lemma LongerRun(elapsed: Elapsed)
    requires elapsed > 0
    ensures FinishSite(NO_TROUBLE.finishing.(elapsed := elapsed)).None?
  {
  }

  lemma LegalErrno(prefix: nat, reason: Reason, stage: Stage, mask: nat, e: nat)
    requires ErrorLegal(prefix, reason, stage, mask, e)
    ensures e <= MAX_ERRNO && ExitCodeForReason(reason) == Ok(ExitForReason(reason))
  {
  }
}
