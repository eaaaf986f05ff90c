/**
  The parent-side parser of the launcher's one-way transcript: record decoding, the exact
  error grammar and the transcript walk, with a characterisation of the accepted language.
 */
module NativeProtocol {
  import opened Common
  import opened Wire

  const MAX_FRAMES := 8
  const MAX_ERRNO := 4095
  const MAX_PID := 0x3F_FFFF
  const CLONE_FLAGS := 0x2_0000_1000
  const CLD_KILLED := 2
  const CLD_STOPPED := 5
  const SIGKILL := 9
  const SIGSTOP := 19
  const ACHIEVED_MASK := 0x1FF
  const SUCCESS_LENGTH := 5

  datatype FrameType = Hello | ChildReady | ChildSignaled | ChildObserved | Final | Error

  datatype Status = Good | Failed

  datatype Stage =
    | Startup | DescriptorValidation | CgroupValidation | FixtureSetup | Clone3 | ChildReady
    | PidfdSignal | CgroupKill | ChildObservation | ChildReap | Cleanup | Protocol

  datatype Reason =
    | NoReason | BadArgc | BadArgv | NonemptyEnvironment | BadDescriptorLayout | BadStdio
    | BadControlSocket | BadCgroupDescriptor | CgroupNotEmpty | ProtocolInput | PeerClosed
    | ResourceExhausted | Clone3Unavailable | Clone3Rejected | PidfdUnavailable
    | ChildSetupFailed | PidfdSignalFailed | CgroupKillFailed | ChildObservationFailed
    | ChildReapFailed | Timeout | CleanupIncomplete | IoFailure | Internal

  // ---------------------------------------------------------------------------------------
  // Enumerations on the wire

  function FrameTypeCode(f: FrameType): nat {
    match f
    case Hello => 1
    case ChildReady => 2
    case ChildSignaled => 3
    case ChildObserved => 4
    case Final => 5
    case Error => 6
  }

  function FrameTypeOf(n: nat): (r: Option<FrameType>)
    ensures r.Some? ==> FrameTypeCode(r.value) == n
  {
    if n == 1 then Some(Hello)
    else if n == 2 then Some(FrameType.ChildReady)
    else if n == 3 then Some(ChildSignaled)
    else if n == 4 then Some(ChildObserved)
    else if n == 5 then Some(Final)
    else if n == 6 then Some(Error)
    else None
  }

  function StageCode(s: Stage): nat {
    match s
    case Startup => 1
    case DescriptorValidation => 2
    case CgroupValidation => 3
    case FixtureSetup => 4
    case Clone3 => 5
    case ChildReady => 6
    case PidfdSignal => 7
    case CgroupKill => 8
    case ChildObservation => 9
    case ChildReap => 10
    case Cleanup => 11
    case Protocol => 12
  }

  function StageOf(n: nat): (r: Option<Stage>)
    ensures r.Some? ==> StageCode(r.value) == n
  {
    if n == 1 then Some(Startup)
    else if n == 2 then Some(DescriptorValidation)
    else if n == 3 then Some(CgroupValidation)
    else if n == 4 then Some(FixtureSetup)
    else if n == 5 then Some(Clone3)
    else if n == 6 then Some(Stage.ChildReady)
    else if n == 7 then Some(PidfdSignal)
    else if n == 8 then Some(CgroupKill)
    else if n == 9 then Some(ChildObservation)
    else if n == 10 then Some(ChildReap)
    else if n == 11 then Some(Cleanup)
    else if n == 12 then Some(Protocol)
    else None
  }

  function ReasonCode(r: Reason): nat {
    match r
    case NoReason => 0
    case BadArgc => 1
    case BadArgv => 2
    case NonemptyEnvironment => 3
    case BadDescriptorLayout => 4
    case BadStdio => 5
    case BadControlSocket => 6
    case BadCgroupDescriptor => 7
    case CgroupNotEmpty => 8
    case ProtocolInput => 9
    case PeerClosed => 10
    case ResourceExhausted => 11
    case Clone3Unavailable => 12
    case Clone3Rejected => 13
    case PidfdUnavailable => 14
    case ChildSetupFailed => 15
    case PidfdSignalFailed => 16
    case CgroupKillFailed => 17
    case ChildObservationFailed => 18
    case ChildReapFailed => 19
    case Timeout => 20
    case CleanupIncomplete => 21
    case IoFailure => 22
    case Internal => 23
  }

  function ReasonOf(n: nat): (r: Option<Reason>)
    ensures r.Some? ==> ReasonCode(r.value) == n
  {
    if n == 0 then Some(NoReason)
    else if n == 1 then Some(BadArgc)
    else if n == 2 then Some(BadArgv)
    else if n == 3 then Some(NonemptyEnvironment)
    else if n == 4 then Some(BadDescriptorLayout)
    else if n == 5 then Some(BadStdio)
    else if n == 6 then Some(BadControlSocket)
    else if n == 7 then Some(BadCgroupDescriptor)
    else if n == 8 then Some(CgroupNotEmpty)
    else if n == 9 then Some(ProtocolInput)
    else if n == 10 then Some(PeerClosed)
    else if n == 11 then Some(ResourceExhausted)
    else if n == 12 then Some(Clone3Unavailable)
    else if n == 13 then Some(Clone3Rejected)
    else if n == 14 then Some(PidfdUnavailable)
    else if n == 15 then Some(ChildSetupFailed)
    else if n == 16 then Some(PidfdSignalFailed)
    else if n == 17 then Some(CgroupKillFailed)
    else if n == 18 then Some(ChildObservationFailed)
    else if n == 19 then Some(ChildReapFailed)
    else if n == 20 then Some(Timeout)
    else if n == 21 then Some(CleanupIncomplete)
    else if n == 22 then Some(IoFailure)
    else if n == 23 then Some(Internal)
    else None
  }

  function StatusCode(s: Status): nat {
    if s == Good then 0 else 1
  }

  /** Each decoder of an enumeration finds every value at its own code. */
  lemma EnumerationsInvert(f: Frame)
    ensures FrameTypeOf(FrameTypeCode(f.frameType)) == Some(f.frameType)
    ensures StageOf(StageCode(f.stage)) == Some(f.stage)
    ensures ReasonOf(ReasonCode(f.reason)) == Some(f.reason)
  {
  }

  // ---------------------------------------------------------------------------------------
  // Records and frames

  datatype Record = Record(
    payload: seq<Byte>, messageTruncated: bool, controlTruncated: bool, ancillaryPresent: bool)

  datatype Frame = Frame(
    frameType: FrameType, sequence: nat, status: Status, stage: Stage, reason: Reason,
    errorNumber: nat, value0: nat, value1: nat)

  function Raw(f: Frame): RawFrame {
    RawFrame(FrameTypeCode(f.frameType), f.sequence, StatusCode(f.status), StageCode(f.stage),
             ReasonCode(f.reason), f.errorNumber, f.value0, f.value1)
  }

  /** The numeric ranges a decoded frame always satisfies. */
  predicate InRange(f: Frame) {
    && f.sequence < 0x1_0000_0000_0000_0000
    && f.errorNumber <= MAX_ERRNO
    && f.value0 < 0x1_0000_0000_0000_0000
    && f.value1 < 0x1_0000_0000_0000_0000
  }

  /** The record a collector builds from an untruncated frame with the expected sender. */
  function Sent(f: Frame): Record {
    Record(Encode(Raw(f)), false, false, false)
  }

  function SentAll(frames: seq<Frame>): (records: seq<Record>) {
    seq(|frames|, i requires 0 <= i < |frames| => Sent(frames[i]))
  }

  function DecodeRecord(record: Record): Result<Frame> {
    if record.messageTruncated || record.controlTruncated then Rejected
    else if record.ancillaryPresent then Rejected
    else if |record.payload| != FRAME_SIZE then Rejected
    else if !WellFramed(record.payload) then Rejected
    else
      var raw := Unpack(record.payload);
      if raw.errorNumber > MAX_ERRNO then Rejected
      else
        var frameType, stage, reason := FrameTypeOf(raw.frameType), StageOf(raw.stage), ReasonOf(raw.reason);
        if frameType.None? || raw.status > 1 || stage.None? || reason.None? then Rejected
        else Ok(Frame(frameType.value, raw.sequence, if raw.status == 0 then Good else Failed,
                      stage.value, reason.value, raw.errorNumber, raw.value0, raw.value1))
  }

  /** Decoding and encoding are mutual inverses: a record decodes to `f` exactly when it is the
      byte-for-byte encoding of `f` and `f` is in range. */
  lemma DecodeInvertsEncode(record: Record, f: Frame)
    ensures DecodeRecord(record) == Ok(f) <==> InRange(f) && record == Sent(f)
  {
    hide FrameTypeOf, StageOf, ReasonOf, Encode, Unpack, WellFramed;
    EnumerationsInvert(f);
    if DecodeRecord(record) == Ok(f) {
      UnpackEncodes(record.payload);
      assert Raw(f) == Unpack(record.payload);
    }
    if InRange(f) && record == Sent(f) {
      assert FitsWire(Raw(f));
      EncodeUnpacks(Raw(f));
    }
  }

  // ---------------------------------------------------------------------------------------
  // The error grammar

  predicate Grammar0(reason: Reason, stage: Stage, mask: nat) {
    || (reason == BadDescriptorLayout && stage == DescriptorValidation && mask in {0x000})
    || (reason == BadCgroupDescriptor && stage == DescriptorValidation && mask in {0x000})
    || (reason == BadCgroupDescriptor && stage == CgroupValidation && mask in {0x000})
    || (reason == CgroupNotEmpty && stage == CgroupValidation && mask in {0x000})
    || (reason == Internal && stage == Startup && mask in {0x000})
    || (reason == IoFailure && stage == Protocol && mask in {0x000})
    || (reason == CleanupIncomplete && stage == Cleanup && mask in {0x000})
  }

  predicate Grammar1(reason: Reason, stage: Stage, mask: nat) {
    || (reason == Internal && stage == FixtureSetup && mask in {0x000})
    || (reason == ResourceExhausted && stage == FixtureSetup && mask in {0x000})
    || (reason == ResourceExhausted && stage == Clone3 && mask in {0x000})
    || (reason == Clone3Unavailable && stage == Clone3 && mask in {0x000})
    || (reason == Clone3Rejected && stage == Clone3 && mask in {0x000})
    || (reason == PidfdUnavailable && stage == Clone3 && mask in {0x0C1})
    || (reason == ChildSetupFailed && stage == Stage.ChildReady && mask in {0x0C3})
    || (reason == ChildObservationFailed && stage == Stage.ChildReady && mask in {0x0C3})
    || (reason == Timeout && stage == Stage.ChildReady && mask in {0x0C3})
    || (reason == ProtocolInput && stage == Protocol && mask in {0x000, 0x0C3, 0x1C3})
    || (reason == IoFailure && stage == FixtureSetup && mask in {0x000, 0x0C3})
    || (reason == IoFailure && stage == Stage.ChildReady && mask in {0x0C3, 0x1C3})
    || (reason == IoFailure && stage == Protocol && mask in {0x1C3})
    || (reason == CleanupIncomplete && stage == Cleanup && mask in {
         0x000, 0x001, 0x041, 0x081, 0x0C1, 0x003, 0x043, 0x083, 0x0C3, 0x103, 0x143, 0x183, 0x1C3})
  }

  predicate Grammar2(reason: Reason, stage: Stage, mask: nat) {
    || (reason == PidfdSignalFailed && stage == PidfdSignal && mask in {0x1C3})
    || (reason == ChildObservationFailed && stage == PidfdSignal && mask in {0x1C7, 0x1CF})
    || (reason == Timeout && stage == PidfdSignal && mask in {0x1C7})
    || (reason == ProtocolInput && stage == Protocol && mask in {0x1C7, 0x1CF})
    || (reason == IoFailure && stage == PidfdSignal && mask in {0x1C7, 0x1CF})
    || (reason == IoFailure && stage == Protocol && mask in {0x1CF})
    || (reason == CleanupIncomplete && stage == Cleanup && mask in {
         0x103, 0x143, 0x183, 0x1C3, 0x107, 0x147, 0x187, 0x1C7, 0x10F, 0x14F, 0x18F, 0x1CF})
  }

  predicate Grammar3(reason: Reason, stage: Stage, mask: nat) {
    || (reason == CgroupKillFailed && stage == CgroupKill && mask in {0x1CF})
    || (reason == ChildObservationFailed && stage == ChildObservation && mask in {0x1DF})
    || (reason == Timeout && stage == ChildObservation && mask in {0x1DF})
    || (reason == ProtocolInput && stage == Protocol && mask in {0x1CF, 0x1DF, 0x1FF})
    || (reason == IoFailure && stage == CgroupKill && mask in {0x1CF})
    || (reason == IoFailure && stage == ChildObservation && mask in {0x1DF, 0x1FF})
    || (reason == IoFailure && stage == Protocol && mask in {0x1FF})
    || (reason == CleanupIncomplete && stage == Cleanup && mask in {
         0x10F, 0x14F, 0x18F, 0x1CF, 0x11F, 0x15F, 0x19F, 0x1DF, 0x1BF, 0x1FF})
  }

  predicate Grammar4(reason: Reason, stage: Stage, mask: nat) {
    || (reason == ChildReapFailed && stage == ChildReap && mask in {0x1FF})
    || (reason == Internal && stage == Cleanup && mask in {0x1FF})
    || (reason == ProtocolInput && stage == Protocol && mask in {0x1FF})
    || (reason == IoFailure && stage == Cleanup && mask in {0x1FF})
    || (reason == CleanupIncomplete && stage == Cleanup && mask in {0x1BF, 0x1FF})
  }

  /** The grammar table: the masks listed for a number of success frames, reason and stage. */
  predicate GrammarAllows(prefix: nat, reason: Reason, stage: Stage, mask: nat) {
    || (prefix == 0 && Grammar0(reason, stage, mask))
    || (prefix == 1 && Grammar1(reason, stage, mask))
    || (prefix == 2 && Grammar2(reason, stage, mask))
    || (prefix == 3 && Grammar3(reason, stage, mask))
    || (prefix == 4 && Grammar4(reason, stage, mask))
  }

  predicate ZeroErrnoKey(prefix: nat, reason: Reason, stage: Stage) {
    || reason in {CgroupNotEmpty, ProtocolInput, Timeout}
    || (prefix == 1 && reason == ChildObservationFailed && stage == Stage.ChildReady)
    || (prefix == 4 && reason == Internal && stage == Cleanup)
  }

  predicate ZeroErrnoState(prefix: nat, reason: Reason, stage: Stage, mask: nat) {
    prefix == 2 && reason == ChildObservationFailed && stage == PidfdSignal && mask == 0x1CF
  }

  predicate NonzeroErrnoState(prefix: nat, reason: Reason, stage: Stage, mask: nat) {
    || (reason == IoFailure && (prefix, stage, mask) in {
         (0, Protocol, 0x000), (1, Protocol, 0x1C3), (2, Protocol, 0x1CF), (3, Protocol, 0x1FF),
         (1, FixtureSetup, 0x000), (1, FixtureSetup, 0x0C3), (1, Stage.ChildReady, 0x1C3),
         (2, PidfdSignal, 0x1C7), (3, CgroupKill, 0x1CF), (3, ChildObservation, 0x1FF),
         (4, Cleanup, 0x1FF)})
    || (reason == ResourceExhausted && (prefix, stage, mask) == (1, FixtureSetup, 0x000))
    || (reason == CgroupKillFailed && (prefix, stage, mask) == (3, CgroupKill, 0x1CF))
    || (reason == CleanupIncomplete && stage == Cleanup && (prefix, mask) in {
         (0, 0x000), (1, 0x000), (1, 0x0C1), (1, 0x0C3), (1, 0x1C3), (2, 0x1C3), (2, 0x1C7),
         (2, 0x1CF), (3, 0x1CF), (3, 0x1DF), (3, 0x1FF), (4, 0x1FF)})
  }

  const ENOSYS := 38
  const CLONE_RESOURCE_ERRNOS: set<nat> := {11, 12, 23, 24}

  /** All the errno clauses of the error validator. */
  predicate ErrnoLegal(prefix: nat, reason: Reason, stage: Stage, mask: nat, e: nat) {
    && (ZeroErrnoKey(prefix, reason, stage) ==> e == 0)
    && (ZeroErrnoState(prefix, reason, stage, mask) ==> e == 0)
    && (reason == Clone3Unavailable ==> e == ENOSYS)
    && (reason == ResourceExhausted && stage == Clone3 ==> e in CLONE_RESOURCE_ERRNOS)
    && (reason == Clone3Rejected ==> e != 0 && e !in CLONE_RESOURCE_ERRNOS && e != ENOSYS)
    && (reason == PidfdSignalFailed ==> e != 0)
    && (NonzeroErrnoState(prefix, reason, stage, mask) ==> e != 0)
  }

  predicate ErrorLegal(prefix: nat, reason: Reason, stage: Stage, mask: nat, e: nat) {
    && e <= MAX_ERRNO
    && GrammarAllows(prefix, reason, stage, mask)
    && ErrnoLegal(prefix, reason, stage, mask, e)
  }

  function ExitCodeForReason(reason: Reason): Result<nat> {
    var code := ReasonCode(reason);
    if 1 <= code <= 8 then Ok(64)
    else if 9 <= code <= 10 then Ok(65)
    else if 11 <= code <= 19 then Ok(66)
    else if reason == Timeout then Ok(67)
    else if reason == CleanupIncomplete then Ok(68)
    else if reason == IoFailure then Ok(66)
    else if reason == Internal then Ok(69)
    else Rejected
  }

  /** No accepted error mask reports a cloned child without also reporting it reaped and the
      cgroup empty, except under the cleanup-incomplete reason. */
  lemma ClonedImpliesReapedAndEmpty(prefix: nat, reason: Reason, stage: Stage, mask: nat)
    requires GrammarAllows(prefix, reason, stage, mask)
    requires mask % 2 == 1 && reason != CleanupIncomplete
    ensures mask / 64 % 2 == 1 && mask / 128 % 2 == 1
  {
    hide GrammarAllows;
    ListedMask(prefix, reason, stage, mask);
    MaskBits(mask);
  }

  lemma MaskBits(mask: nat)
    requires mask in {0x000, 0x0C1, 0x0C3, 0x1C3, 0x1C7, 0x1CF, 0x1DF, 0x1FF} && mask % 2 == 1
    ensures mask / 64 % 2 == 1 && mask / 128 % 2 == 1
  {
  }

  lemma ListedMask(prefix: nat, reason: Reason, stage: Stage, mask: nat)
    requires GrammarAllows(prefix, reason, stage, mask) && reason != CleanupIncomplete
    ensures mask in {0x000, 0x0C1, 0x0C3, 0x1C3, 0x1C7, 0x1CF, 0x1DF, 0x1FF}
  {
  }

  // ---------------------------------------------------------------------------------------
  // Transcript validation

  datatype Transcript = Transcript(
    succeeded: bool, frames: seq<Frame>, exitCode: nat, launcherPid: nat, childPid: Option<nat>,
    achieved: nat, elapsed: Option<nat>, failureStage: Option<Stage>,
    failureReason: Option<Reason>, failureErrno: Option<nat>)

  const SUCCESS_TYPES: seq<FrameType> :=
    [Hello, FrameType.ChildReady, ChildSignaled, ChildObserved, Final]
  const SUCCESS_STAGES: seq<Stage> :=
    [Startup, Stage.ChildReady, PidfdSignal, ChildObservation, Cleanup]

  /** One success frame, including the launcher and child process identity checks. */
  predicate SuccessFrameValid(f: Frame, index: nat, pid: nat)
    requires index < SUCCESS_LENGTH
  {
    && f.frameType == SUCCESS_TYPES[index]
    && f.status == Good
    && f.stage == SUCCESS_STAGES[index]
    && f.reason == NoReason && f.errorNumber == 0
    && (index == 0 ==> 1 <= f.value0 <= MAX_PID && f.value1 == 0 && f.value0 == pid)
    && (index == 1 ==> 1 <= f.value0 <= MAX_PID && f.value1 == CLONE_FLAGS && f.value0 != pid)
    && (index == 2 ==> f.value0 == CLD_STOPPED && f.value1 == SIGSTOP)
    && (index == 3 ==> f.value0 == CLD_KILLED && f.value1 == SIGKILL)
    && (index == 4 ==> f.value0 == ACHIEVED_MASK && f.value1 != 0)
  }

  function ErrorFrameExit(f: Frame, prefix: nat, returncode: int): Result<nat> {
    if f.status != Failed then Rejected
    else if f.reason == NoReason then Rejected
    else if f.value0 / (ACHIEVED_MASK + 1) != 0 then Rejected
    else if f.value1 != 0 then Rejected
    else if !GrammarAllows(prefix, f.reason, f.stage, f.value0) then Rejected
    else if !ErrnoLegal(prefix, f.reason, f.stage, f.value0, f.errorNumber) then Rejected
    else
      var expected :- ExitCodeForReason(f.reason);
      if returncode != expected then Rejected else Ok(expected)
  }

  function DecodeAll(records: seq<Record>, index: nat): Result<seq<Frame>>
    requires index <= |records|
    decreases |records| - index
  {
    if index == |records| then Ok([])
    else
      var frame :- DecodeRecord(records[index]);
      if frame.sequence != index then Rejected
      else
        var rest :- DecodeAll(records, index + 1);
        Ok([frame] + rest)
  }

  function Walk(frames: seq<Frame>, index: nat, child: Option<nat>, returncode: int, pid: nat): Result<Transcript>
    requires index <= |frames|
    decreases |frames| - index
  {
    if index == |frames| then
      if |frames| != SUCCESS_LENGTH then Rejected
      else if returncode != 0 then Rejected
      else
        var final := frames[|frames| - 1];
        Ok(Transcript(true, frames, 0, pid, child, final.value0, Some(final.value1), None, None, None))
    else
      var frame := frames[index];
      if frame.frameType == Error then
        if index >= SUCCESS_LENGTH then Rejected
        else if index != |frames| - 1 then Rejected
        else
          var exitCode :- ErrorFrameExit(frame, index, returncode);
          Ok(Transcript(false, frames, exitCode, pid, child, frame.value0, None,
                        Some(frame.stage), Some(frame.reason), Some(frame.errorNumber)))
      else if index >= SUCCESS_LENGTH then Rejected
      else if !SuccessFrameValid(frame, index, pid) then Rejected
      else Walk(frames, index + 1, if index == 1 then Some(frame.value0) else child, returncode, pid)
  }

  function Parse(records: seq<Record>, returncode: int, eof: bool, pid: int): Result<Transcript> {
    if !eof then Rejected
    else if !(1 <= pid <= MAX_PID) then Rejected
    else if |records| == 0 || |records| > MAX_FRAMES then Rejected
    else
      var frames :- DecodeAll(records, 0);
      Walk(frames, 0, None, returncode, pid)
  }

  lemma {:induction false} DecodeAllAppends(records: seq<Record>, index: nat, done: seq<Frame>)
    requires index < |records|
    ensures DecodeRecord(records[index]).Rejected? ==> DecodeAll(records, index).Rejected?
    ensures DecodeRecord(records[index]).Ok? && DecodeRecord(records[index]).value.sequence != index
            ==> DecodeAll(records, index).Rejected?
    ensures DecodeRecord(records[index]).Ok? && DecodeRecord(records[index]).value.sequence == index
            ==> Prepend(done, DecodeAll(records, index))
                == Prepend(done + [DecodeRecord(records[index]).value], DecodeAll(records, index + 1))
  {
    hide DecodeRecord;
    if DecodeRecord(records[index]).Ok? && DecodeAll(records, index + 1).Ok? {
      var frame := DecodeRecord(records[index]).value;
      var rest := DecodeAll(records, index + 1).value;
      assert done + ([frame] + rest) == (done + [frame]) + rest;
    }
  }

  function Prepend(done: seq<Frame>, r: Result<seq<Frame>>): Result<seq<Frame>> {
    if r.Ok? then Ok(done + r.value) else Rejected
  }

  /** The two loops of the source: decode every record, then walk the frames. */
  method ParseTranscript(records: seq<Record>, returncode: int, eof: bool, pid: int) returns (r: Result<Transcript>)
    ensures r == Parse(records, returncode, eof, pid)
  {
    hide DecodeAll, Walk;
    if !eof {
      return Rejected;
    }
    if !(1 <= pid <= MAX_PID) {
      return Rejected;
    }
    if |records| == 0 || |records| > MAX_FRAMES {
      return Rejected;
    }
    var frames := DecodeRecords(records);
    if frames.Rejected? {
      return Rejected;
    }
    r := WalkFrames(frames.value, returncode, pid);
  }

  method DecodeRecords(records: seq<Record>) returns (r: Result<seq<Frame>>)
    ensures r == DecodeAll(records, 0)
  {
    hide DecodeRecord;
    var frames: seq<Frame> := [];
    PrependNothing(DecodeAll(records, 0));
    for index := 0 to |records|
      invariant Prepend(frames, DecodeAll(records, index)) == DecodeAll(records, 0)
    {
      DecodeAllAppends(records, index, frames);
      var decoded := DecodeRecord(records[index]);
      if decoded.Rejected? || decoded.value.sequence != index {
        return Rejected;
      }
      frames := frames + [decoded.value];
    }
    assert frames + [] == frames;
    r := Ok(frames);
  }

  lemma PrependNothing(r: Result<seq<Frame>>)
    ensures Prepend([], r) == r
  {
    if r.Ok? {
      assert [] + r.value == r.value;
    }
  }

  method WalkFrames(frames: seq<Frame>, returncode: int, pid: nat) returns (r: Result<Transcript>)
    ensures r == Walk(frames, 0, None, returncode, pid)
  {
    hide SuccessFrameValid, ErrorFrameExit;
    var childPid: Option<nat> := None;
    var index := 0;
    while index < |frames|
      invariant 0 <= index <= |frames|
      invariant Walk(frames, index, childPid, returncode, pid) == Walk(frames, 0, None, returncode, pid)
    {
      var frame := frames[index];
      if frame.frameType == Error {
        if index >= SUCCESS_LENGTH || index != |frames| - 1 {
          return Rejected;
        }
        var exitCode := ErrorFrameExit(frame, index, returncode);
        if exitCode.Rejected? {
          return Rejected;
        }
        return Ok(Transcript(false, frames, exitCode.value, pid, childPid, frame.value0, None,
                             Some(frame.stage), Some(frame.reason), Some(frame.errorNumber)));
      }
      if index >= SUCCESS_LENGTH || !SuccessFrameValid(frame, index, pid) {
        return Rejected;
      }
      if index == 1 {
        childPid := Some(frame.value0);
      }
      index := index + 1;
    }
    if |frames| != SUCCESS_LENGTH || returncode != 0 {
      return Rejected;
    }
    var final := frames[|frames| - 1];
    return Ok(Transcript(true, frames, 0, pid, childPid, final.value0, Some(final.value1), None, None, None));
  }

  // ---------------------------------------------------------------------------------------
  // The accepted language

  /** A whole run as the protocol describes it: the five success frames, or a success prefix
      ended by one error. `childPid` is zero when the prefix is too short to report a child. */
  datatype Script =
    | Success(childPid: nat, elapsed: nat)
    | Failure(prefix: nat, childPid: nat, reason: Reason, stage: Stage, mask: nat, errorNumber: nat)

  predicate LegalChild(childPid: nat, pid: nat) {
    1 <= childPid <= MAX_PID && childPid != pid
  }

  predicate LegalScript(script: Script, pid: nat) {
    match script
    case Success(childPid, elapsed) =>
      LegalChild(childPid, pid) && 1 <= elapsed < 0x1_0000_0000_0000_0000
    case Failure(prefix, childPid, reason, stage, mask, e) =>
      && prefix < SUCCESS_LENGTH
      && (if prefix >= 2 then LegalChild(childPid, pid) else childPid == 0)
      && ErrorLegal(prefix, reason, stage, mask, e)
  }

  function SuccessFrame(index: nat, pid: nat, childPid: nat, elapsed: nat): Frame
    requires index < SUCCESS_LENGTH
  {
    var values := [(pid, 0), (childPid, CLONE_FLAGS), (CLD_STOPPED, SIGSTOP), (CLD_KILLED, SIGKILL),
                   (ACHIEVED_MASK, elapsed)];
    Frame(SUCCESS_TYPES[index], index, Good, SUCCESS_STAGES[index], NoReason, 0,
          values[index].0, values[index].1)
  }

  function SuccessPrefix(n: nat, pid: nat, childPid: nat, elapsed: nat): (s: seq<Frame>)
    requires n <= SUCCESS_LENGTH
    ensures |s| == n
  {
    seq(n, i requires 0 <= i < n => SuccessFrame(i, pid, childPid, elapsed))
  }

  function ScriptFrames(script: Script, pid: nat): seq<Frame>
    requires script.Failure? ==> script.prefix < SUCCESS_LENGTH
  {
    match script
    case Success(childPid, elapsed) => SuccessPrefix(SUCCESS_LENGTH, pid, childPid, elapsed)
    case Failure(prefix, childPid, reason, stage, mask, e) =>
      SuccessPrefix(prefix, pid, childPid, 0)
      + [Frame(Error, prefix, Failed, stage, reason, e, mask, 0)]
  }

  function ScriptRecords(script: Script, pid: nat): seq<Record>
    requires script.Failure? ==> script.prefix < SUCCESS_LENGTH
  {
    SentAll(ScriptFrames(script, pid))
  }

  function ScriptExit(script: Script): Result<nat> {
    if script.Success? then Ok(0) else ExitCodeForReason(script.reason)
  }

  function ScriptTranscript(script: Script, pid: nat, exitCode: nat): Transcript
    requires script.Failure? ==> script.prefix < SUCCESS_LENGTH
  {
    var frames := ScriptFrames(script, pid);
    match script
    case Success(childPid, elapsed) =>
      Transcript(true, frames, 0, pid, Some(childPid), ACHIEVED_MASK, Some(elapsed), None, None, None)
    case Failure(prefix, childPid, reason, stage, mask, e) =>
      Transcript(false, frames, exitCode, pid, if prefix >= 2 then Some(childPid) else None,
                 mask, None, Some(stage), Some(reason), Some(e))
  }

  ghost predicate Describes(script: Script, records: seq<Record>, returncode: int, pid: nat) {
    LegalScript(script, pid) && records == ScriptRecords(script, pid) && ScriptExit(script) == Ok(returncode)
  }

  lemma {:induction false} DecodeAllCharacterised(records: seq<Record>, index: nat, frames: seq<Frame>)
    requires index <= |records|
    ensures DecodeAll(records, index) == Ok(frames)
            <==> && |frames| == |records| - index
                 && forall i :: 0 <= i < |frames| ==>
                      InRange(frames[i]) && frames[i].sequence == index + i && records[index + i] == Sent(frames[i])
    decreases |records| - index
  {
    hide DecodeRecord, Sent, InRange;
    if index < |records| {
      if frames == [] {
      } else {
        DecodeInvertsEncode(records[index], frames[0]);
        DecodeAllCharacterised(records, index + 1, frames[1..]);
        assert frames == [frames[0]] + frames[1..];
        if DecodeAll(records, index) == Ok(frames) {
          assert DecodeAll(records, index + 1) == Ok(frames[1..]);
          forall i | 0 <= i < |frames|
            ensures InRange(frames[i]) && frames[i].sequence == index + i && records[index + i] == Sent(frames[i])
          {
            if i > 0 {
              assert frames[i] == frames[1..][i - 1];
            }
          }
        }
      }
    }
  }

  /** What the walk from `index` accepts, frame by frame. */
  ghost predicate WalkAccepts(frames: seq<Frame>, index: nat, returncode: int, pid: nat) {
    || (&& |frames| == SUCCESS_LENGTH && returncode == 0
        && forall i :: index <= i < SUCCESS_LENGTH ==> SuccessFrameValid(frames[i], i, pid))
    || (&& index < |frames| <= SUCCESS_LENGTH
        && frames[|frames| - 1].frameType == Error
        && ErrorFrameExit(frames[|frames| - 1], |frames| - 1, returncode).Ok?
        && forall i :: index <= i < |frames| - 1 ==> SuccessFrameValid(frames[i], i, pid))
  }

  function ChildAfter(frames: seq<Frame>, index: nat, child: Option<nat>): Option<nat> {
    if |frames| > 1 && index <= 1 && frames[1].frameType != Error then Some(frames[1].value0) else child
  }

  lemma ValidFrameIsNoError(f: Frame, index: nat, pid: nat)
    requires index < SUCCESS_LENGTH
    ensures SuccessFrameValid(f, index, pid) ==> f.frameType != Error
  {
  }

  lemma {:induction false} WalkCharacterised(
    frames: seq<Frame>, index: nat, child: Option<nat>, returncode: int, pid: nat)
    requires index <= |frames|
    requires forall i :: 0 <= i < index ==> frames[i].frameType != Error
    ensures Walk(frames, index, child, returncode, pid).Ok? <==> WalkAccepts(frames, index, returncode, pid)
    ensures Walk(frames, index, child, returncode, pid).Ok? ==>
              var last := frames[|frames| - 1];
              var child' := ChildAfter(frames, index, child);
              && (last.frameType == Error ==> ErrorFrameExit(last, |frames| - 1, returncode).Ok?)
              && Walk(frames, index, child, returncode, pid).value
                 == if last.frameType == Error
                    then Transcript(false, frames, ErrorFrameExit(last, |frames| - 1, returncode).value, pid, child',
                                    last.value0, None, Some(last.stage), Some(last.reason), Some(last.errorNumber))
                    else Transcript(true, frames, 0, pid, child', last.value0, Some(last.value1), None, None, None)
    decreases |frames| - index
  {
    hide SuccessFrameValid, ErrorFrameExit;
    if index < |frames| && index < SUCCESS_LENGTH {
      ValidFrameIsNoError(frames[index], index, pid);
    }
    if index < |frames| && frames[index].frameType != Error && index < SUCCESS_LENGTH
       && SuccessFrameValid(frames[index], index, pid)
    {
      var child' := if index == 1 then Some(frames[index].value0) else child;
      WalkCharacterised(frames, index + 1, child', returncode, pid);
    }
  }

  /** Soundness and completeness of the parser: it accepts exactly the byte-for-byte encodings
      of legal scripts with their exit code, an observed end of file and a valid launcher pid,
      and it reports the script it was given. */
  lemma ParseAcceptsExactly(records: seq<Record>, returncode: int, eof: bool, pid: int)
    ensures Parse(records, returncode, eof, pid).Ok?
            <==> eof && 1 <= pid <= MAX_PID && exists script :: Describes(script, records, returncode, pid)
  {
    if Parse(records, returncode, eof, pid).Ok? {
      var script := AcceptedScript(records, returncode, pid);
    }
    if eof && 1 <= pid <= MAX_PID && exists script :: Describes(script, records, returncode, pid) {
      var script :| Describes(script, records, returncode, pid);
      ScriptIsAccepted(script, records, returncode, pid);
    }
  }

  /** Frames numbered from zero whose integers fit the wire. */
  ghost predicate Numbered(frames: seq<Frame>) {
    forall i :: 0 <= i < |frames| ==> InRange(frames[i]) && frames[i].sequence == i
  }

  lemma AcceptedFailure(frames: seq<Frame>, returncode: int, pid: nat) returns (script: Script)
    requires Numbered(frames) && 0 < |frames| <= SUCCESS_LENGTH
    requires forall i :: 0 <= i < |frames| - 1 ==> SuccessFrameValid(frames[i], i, pid)
    requires frames[|frames| - 1].frameType == Error
    requires ErrorFrameExit(frames[|frames| - 1], |frames| - 1, returncode).Ok?
    ensures script.Failure? && LegalScript(script, pid)
    ensures frames == ScriptFrames(script, pid) && ScriptExit(script) == Ok(returncode)
  {
    hide GrammarAllows, ErrnoLegal, ExitCodeForReason;
    var prefix := |frames| - 1;
    var last := frames[prefix];
    var child := if prefix >= 2 then frames[1].value0 else 0;
    script := Failure(prefix, child, last.reason, last.stage, last.value0, last.errorNumber);
    PrefixFrames(frames, prefix, pid, child, 0);
    assert frames == frames[..prefix] + [last];
  }

  lemma AcceptedSuccess(frames: seq<Frame>, pid: nat) returns (script: Script)
    requires Numbered(frames) && |frames| == SUCCESS_LENGTH
    requires forall i :: 0 <= i < SUCCESS_LENGTH ==> SuccessFrameValid(frames[i], i, pid)
    ensures script.Success? && LegalScript(script, pid)
    ensures frames == ScriptFrames(script, pid)
  {
    script := Success(frames[1].value0, frames[4].value1);
    PrefixFrames(frames, SUCCESS_LENGTH, pid, frames[1].value0, frames[4].value1);
    assert frames == frames[..SUCCESS_LENGTH];
  }

  /** The script behind an accepted record list. */
  lemma AcceptedScript(records: seq<Record>, returncode: int, pid: nat) returns (script: Script)
    requires Parse(records, returncode, true, pid).Ok?
    ensures Describes(script, records, returncode, pid)
    ensures Parse(records, returncode, true, pid).value == ScriptTranscript(script, pid, ScriptExit(script).value)
  {
    hide GrammarAllows, ErrnoLegal, ExitCodeForReason, DecodeRecord, Encode, DecodeAll, Walk, SuccessFrameValid,
         ErrorFrameExit, LegalScript, Raw, InRange;
    var frames := DecodeAll(records, 0).value;
    DecodeAllCharacterised(records, 0, frames);
    WalkCharacterised(frames, 0, None, returncode, pid);
    if frames[|frames| - 1].frameType == Error {
      script := AcceptedFailure(frames, returncode, pid);
      ErrorExitIsExact(frames[|frames| - 1], |frames| - 1, returncode);
    } else {
      script := AcceptedSuccess(frames, pid);
    }
    assert records == ScriptRecords(script, pid);
  }

  lemma ErrorExitIsExact(f: Frame, prefix: nat, returncode: int)
    requires ErrorFrameExit(f, prefix, returncode).Ok?
    ensures ErrorFrameExit(f, prefix, returncode) == Ok(returncode) == ExitCodeForReason(f.reason)
  {
  }

  lemma PrefixFrames(frames: seq<Frame>, n: nat, pid: nat, child: nat, elapsed: nat)
    requires n <= |frames| && n <= SUCCESS_LENGTH
    requires forall i :: 0 <= i < n ==> SuccessFrameValid(frames[i], i, pid) && frames[i].sequence == i
    requires n >= 2 ==> child == frames[1].value0
    requires n == SUCCESS_LENGTH ==> elapsed == frames[4].value1
    ensures frames[..n] == SuccessPrefix(n, pid, child, elapsed)
  {
    forall i | 0 <= i < n ensures frames[i] == SuccessFrame(i, pid, child, elapsed) {
      assert SuccessFrameValid(frames[i], i, pid);
    }
  }

  /** The frames of a legal script are numbered, in range and accepted by the walk. */
  lemma ScriptFramesAccepted(script: Script, returncode: int, pid: nat)
    requires 1 <= pid <= MAX_PID && LegalScript(script, pid) && ScriptExit(script) == Ok(returncode)
    ensures Numbered(ScriptFrames(script, pid))
    ensures WalkAccepts(ScriptFrames(script, pid), 0, returncode, pid)
  {
    hide GrammarAllows, ErrnoLegal, ExitCodeForReason;
    var frames := ScriptFrames(script, pid);
    if script.Failure? {
      MasksAreSmall(script.prefix, script.reason, script.stage, script.mask);
      forall i | 0 <= i < |frames| - 1
        ensures SuccessFrameValid(frames[i], i, pid) && InRange(frames[i]) && frames[i].sequence == i
      {
        assert frames[i] == SuccessFrame(i, pid, script.childPid, 0);
      }
      assert frames[|frames| - 1] == Frame(Error, script.prefix, Failed, script.stage, script.reason,
                                           script.errorNumber, script.mask, 0);
    } else {
      forall i | 0 <= i < SUCCESS_LENGTH
        ensures SuccessFrameValid(frames[i], i, pid) && InRange(frames[i]) && frames[i].sequence == i
      {
        assert frames[i] == SuccessFrame(i, pid, script.childPid, script.elapsed);
      }
    }
  }

  /** On records that carry numbered, in-range frames the parser is its walk. */
  lemma ParseIsWalk(frames: seq<Frame>, returncode: int, pid: nat)
    requires 1 <= pid <= MAX_PID && Numbered(frames) && 0 < |frames| <= MAX_FRAMES
    ensures Parse(SentAll(frames), returncode, true, pid) == Walk(frames, 0, None, returncode, pid)
  {
    hide DecodeRecord, Sent, DecodeAll, Walk, InRange;
    DecodeAllCharacterised(SentAll(frames), 0, frames);
  }

  lemma ParseOfSent(frames: seq<Frame>, returncode: int, pid: nat)
    requires 1 <= pid <= MAX_PID && Numbered(frames)
    ensures Parse(SentAll(frames), returncode, true, pid).Ok?
            <==> 0 < |frames| <= MAX_FRAMES && WalkAccepts(frames, 0, returncode, pid)
  {
    hide Sent, DecodeAll, Walk, InRange, WalkAccepts;
    if 0 < |frames| <= MAX_FRAMES {
      ParseIsWalk(frames, returncode, pid);
      WalkCharacterised(frames, 0, None, returncode, pid);
    }
  }

  lemma ScriptIsAccepted(script: Script, records: seq<Record>, returncode: int, pid: nat)
    requires 1 <= pid <= MAX_PID && Describes(script, records, returncode, pid)
    ensures Parse(records, returncode, true, pid) == Ok(ScriptTranscript(script, pid, ScriptExit(script).value))
  {
    hide GrammarAllows, ErrnoLegal, ExitCodeForReason, Parse, Walk, Sent, InRange, SuccessFrameValid, ErrorFrameExit,
         WalkAccepts;
    var frames := ScriptFrames(script, pid);
    ScriptFramesAccepted(script, returncode, pid);
    ParseIsWalk(frames, returncode, pid);
    WalkCharacterised(frames, 0, None, returncode, pid);
    if script.Failure? {
      ErrorExitIsExact(frames[|frames| - 1], |frames| - 1, returncode);
    }
  }

  lemma MasksAreSmall(prefix: nat, reason: Reason, stage: Stage, mask: nat)
    requires GrammarAllows(prefix, reason, stage, mask)
    ensures mask <= ACHIEVED_MASK && reason != NoReason
  {
  }

  /** Every accepted transcript that reports a cloned child reports it reaped and its cgroup
      empty, unless its reason is that cleanup was incomplete. */
  lemma AcceptedTranscriptsLeaveNothingBehind(records: seq<Record>, returncode: int, pid: nat)
    requires Parse(records, returncode, true, pid).Ok?
    ensures var t := Parse(records, returncode, true, pid).value;
            t.achieved % 2 == 1 && t.failureReason != Some(CleanupIncomplete)
            ==> t.achieved / 64 % 2 == 1 && t.achieved / 128 % 2 == 1
  {
    hide Parse, GrammarAllows, ErrnoLegal, ScriptRecords, ScriptFrames;
    var script := AcceptedScript(records, returncode, pid);
    if script.Failure? && script.mask % 2 == 1 && script.reason != CleanupIncomplete {
      ClonedImpliesReapedAndEmpty(script.prefix, script.reason, script.stage, script.mask);
    }
  }

  lemma SuccessExitsZero(records: seq<Record>, returncode: int, eof: bool, pid: int)
    requires Parse(records, returncode, eof, pid).Ok? && Parse(records, returncode, eof, pid).value.succeeded
    ensures returncode == 0
  {
    hide Walk, DecodeAll, GrammarAllows, ErrnoLegal;
    WalkCharacterised(DecodeAll(records, 0).value, 0, None, returncode, pid);
  }
}
