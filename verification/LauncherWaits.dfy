/**
  The four polling loops of the native launcher. Each turn of a loop is one element of a script of
  kernel answers; a script that ends counts as the deadline passing, which bounds every loop.
 */
module LauncherWaits {
  import opened Common

  const EBADF: Errno := 9

  /** What a failing system call leaves in errno. */
  type Errno = e: int | 1 <= e <= 4095 witness 1
  /** What errno holds when the failed test was not itself a system call. */
  type Stale = e: int | 0 <= e <= 4095
  /** The errno field of the child's eight-byte setup record. */
  type ChildErrno = e: int | 0 <= e < 0x1_0000

  /** Readiness of the control socket. */
  datatype Event = Input | Hangup | Invalid

  // ---------------------------------------------------------------------------------------
  // The child's setup record

  datatype ReadyWait =
    ReadyDone | ReadyExpired | ReadyPollFailed(e: Errno) | ReadyControl(event: Event) | ReadyBad(c: ChildErrno)

  /** A read from the child's pipe: bytes (none at end of file), nothing yet, or an error. */
  datatype PipeRead = Bytes(data: seq<Byte>) | Again | ReadFails(e: Errno)

  /** Readiness of the pipe. */
  datatype PipeState = PipeQuiet | PipeReadable(read: PipeRead) | PipeBroken

  datatype ReadyTurn =
    ReadyTurnExpires | ReadyTurnFails(e: Errno) | ReadyTurn(control: Option<Event>, pipe: PipeState, exited: bool)

  const RECORD_MAGIC: seq<Byte> := [0x42, 0x50, 0x45, 0x43]

  /** Eight bytes: magic, a status of zero or one, a zero, and an errno. */
  predicate WellFormedRecord(data: seq<Byte>) {
    |data| == 8 && data[..4] == RECORD_MAGIC && data[4] <= 1 && data[5] == 0
  }

  /** The child is set up: the status and the errno are zero. */
  predicate SetUp(data: seq<Byte>) {
    WellFormedRecord(data) && data[4] == 0 && data[6] == 0 && data[7] == 0
  }

  function ErrnoOf(data: seq<Byte>): ChildErrno
    requires |data| == 8
  {
    var (high: int, low: int) := (data[6], data[7]);
    high * 256 + low
  }

  /** What a failed first read means; only a well-formed failure record carries an errno. */
  function FirstReadFailure(read: PipeRead): ChildErrno {
    match read
    case Bytes(data) => if WellFormedRecord(data) && data[4] == 1 then ErrnoOf(data) else 0
    case Again => 11
    case ReadFails(e) => e
  }

  /** The loop from its state `seen`: whether the success record has arrived. */
  function ReadyOf(turns: seq<ReadyTurn>, seen: bool): ReadyWait {
    if turns == [] then ReadyExpired
    else
      match turns[0]
      case ReadyTurnExpires => ReadyExpired
      case ReadyTurnFails(e) => ReadyPollFailed(e)
      case ReadyTurn(Some(event), _, _) => ReadyControl(event)
      case ReadyTurn(None, PipeReadable(read), _) =>
        if seen then
          match read
          case Bytes(data) => if data == [] then ReadyDone else ReadyBad(0)
          case Again => ReadyOf(turns[1..], true)
          case ReadFails(e) => ReadyBad(e)
        else if read.Bytes? && SetUp(read.data) then ReadyOf(turns[1..], true)
        else ReadyBad(FirstReadFailure(read))
      case ReadyTurn(None, PipeBroken, _) => ReadyBad(0)
      case ReadyTurn(None, PipeQuiet, exited) => if exited then ReadyBad(0) else ReadyOf(turns[1..], seen)
  }

  /** A turn in which nothing happens yet. */
  predicate Idle(turn: ReadyTurn) {
    turn.ReadyTurn? && turn.control.None? && turn.pipe == PipeQuiet && !turn.exited
  }

  predicate Reads(turn: ReadyTurn, read: PipeRead) {
    turn.ReadyTurn? && turn.control.None? && turn.pipe == PipeReadable(read)
  }

  predicate Announces(turn: ReadyTurn) {
    turn.ReadyTurn? && turn.control.None? && turn.pipe.PipeReadable? && turn.pipe.read.Bytes?
    && SetUp(turn.pipe.read.data)
  }

  /** The success record arrives at turn `i`, end of file at turn `j`, and nothing else happens. */
  predicate Handshake(turns: seq<ReadyTurn>, i: nat, j: nat) {
    && i < j < |turns| && Announces(turns[i]) && Reads(turns[j], Bytes([]))
    && (forall k :: 0 <= k < i ==> Idle(turns[k]))
    && (forall k :: i < k < j ==> Idle(turns[k]) || Reads(turns[k], Again))
  }

  predicate EndsAt(turns: seq<ReadyTurn>, j: nat) {
    && j < |turns| && Reads(turns[j], Bytes([]))
    && (forall k :: 0 <= k < j ==> Idle(turns[k]) || Reads(turns[k], Again))
  }

  lemma {:induction false} SeenIsDone(turns: seq<ReadyTurn>)
    ensures ReadyOf(turns, true) == ReadyDone <==> exists j: nat :: EndsAt(turns, j)
  {
    if turns != [] {
      var rest := turns[1..];
      SeenIsDone(rest);
      if Idle(turns[0]) || Reads(turns[0], Again) {
        forall j: nat | EndsAt(rest, j) ensures EndsAt(turns, j + 1) {
        }
        forall j: nat | EndsAt(turns, j) ensures j > 0 && EndsAt(rest, j - 1) {
        }
      } else if Reads(turns[0], Bytes([])) {
        assert EndsAt(turns, 0);
      }
    }
  }

  /** The wait succeeds exactly on a handshake: one exact success record, then end of file, with the
      control socket silent, the child alive and the deadline ahead all the while. */
  lemma {:induction false} ReadyExactly(turns: seq<ReadyTurn>)
    ensures ReadyOf(turns, false) == ReadyDone <==> exists i: nat, j: nat :: Handshake(turns, i, j)
  {
    if turns != [] {
      var rest := turns[1..];
      if Idle(turns[0]) {
        ReadyExactly(rest);
        forall i: nat, j: nat | Handshake(rest, i, j) ensures Handshake(turns, i + 1, j + 1) {
        }
        forall i: nat, j: nat | Handshake(turns, i, j) ensures i > 0 && Handshake(rest, i - 1, j - 1) {
        }
      } else if Announces(turns[0]) {
        SeenIsDone(rest);
        forall j: nat | EndsAt(rest, j) ensures Handshake(turns, 0, j + 1) {
        }
        forall i: nat, j: nat | Handshake(turns, i, j) ensures EndsAt(rest, j - 1) {
        }
      }
    }
  }

  method AwaitReady(turns: seq<ReadyTurn>) returns (r: ReadyWait)
    ensures r == ReadyOf(turns, false)
  {
    var seen := false;
    for i := 0 to |turns|
      invariant ReadyOf(turns, false) == ReadyOf(turns[i..], seen)
    {
      assert turns[i..][1..] == turns[i + 1..];
      match turns[i]
      case ReadyTurnExpires =>
        return ReadyExpired;
      case ReadyTurnFails(e) =>
        return ReadyPollFailed(e);
      case ReadyTurn(control, pipe, exited) =>
        if control.Some? {
          return ReadyControl(control.value);
        }
        if pipe.PipeReadable? {
          if seen {
            if pipe.read == Bytes([]) {
              return ReadyDone;
            }
            if !pipe.read.Again? {
              return ReadyBad(if pipe.read.ReadFails? then pipe.read.e else 0);
            }
          } else {
            if !pipe.read.Bytes? {
              return ReadyBad(FirstReadFailure(pipe.read));
            }
            var record := pipe.read.data;
            if |record| != 8 || record[..4] != RECORD_MAGIC || record[5] != 0 || record[4] > 1 {
              return ReadyBad(0);
            }
            if record[4] == 0 && (record[6] != 0 || record[7] != 0) {
              return ReadyBad(0);
            }
            if record[4] != 0 {
              return ReadyBad(ErrnoOf(record));
            }
            seen := true;
          }
        } else if pipe.PipeBroken? || exited {
          return ReadyBad(0);
        }
    }
    return ReadyExpired;
  }

  // ---------------------------------------------------------------------------------------
  // The cgroup becoming populated

  datatype PopulatedWait =
    PopulatedDone | PopulatedExpired | PopulatedPollFailed(e: Errno) | PopulatedControl(event: Event)
    | PopulatedUnreadable(s: Stale) | PopulatedBad

  /** A reading of cgroup.events. */
  datatype EventsRead = EventsUnreadable(s: Stale) | Populated(yes: bool)

  /** A poll of the control socket and two descriptors: `bad` is an event that must not occur. */
  datatype Poll = PollExpires | PollFails(e: Errno) | Polled(control: Option<Event>, bad: bool)

  datatype PopulatedTurn = PopulatedTurn(events: EventsRead, poll: Poll)

  function PopulatedOf(turns: seq<PopulatedTurn>): PopulatedWait {
    if turns == [] then PopulatedExpired
    else if turns[0].events.EventsUnreadable? then PopulatedUnreadable(turns[0].events.s)
    else if turns[0].events.yes then PopulatedDone
    else
      match turns[0].poll
      case PollExpires => PopulatedExpired
      case PollFails(e) => PopulatedPollFailed(e)
      case Polled(Some(event), _) => PopulatedControl(event)
      case Polled(None, bad) => if bad then PopulatedBad else PopulatedOf(turns[1..])
  }

  predicate Uneventful(poll: Poll) {
    poll == Polled(None, false)
  }

  /** Populated at turn `i` for the first time, after silent turns only. */
  predicate PopulatedAt(turns: seq<PopulatedTurn>, i: nat) {
    && i < |turns| && turns[i].events == Populated(true)
    && forall k :: 0 <= k < i ==> turns[k].events == Populated(false) && Uneventful(turns[k].poll)
  }

  lemma {:induction false} PopulatedExactly(turns: seq<PopulatedTurn>)
    ensures PopulatedOf(turns) == PopulatedDone <==> exists i: nat :: PopulatedAt(turns, i)
  {
    if turns != [] {
      var rest := turns[1..];
      PopulatedExactly(rest);
      if turns[0].events == Populated(true) {
        assert PopulatedAt(turns, 0);
      } else if turns[0].events == Populated(false) && Uneventful(turns[0].poll) {
        forall i: nat | PopulatedAt(rest, i) ensures PopulatedAt(turns, i + 1) {
        }
        forall i: nat | PopulatedAt(turns, i) ensures i > 0 && PopulatedAt(rest, i - 1) {
        }
      }
    }
  }

  method AwaitPopulated(turns: seq<PopulatedTurn>) returns (r: PopulatedWait)
    ensures r == PopulatedOf(turns)
  {
    for i := 0 to |turns|
      invariant PopulatedOf(turns) == PopulatedOf(turns[i..])
    {
      assert turns[i..][1..] == turns[i + 1..];
      match turns[i].events
      case EventsUnreadable(s) =>
        return PopulatedUnreadable(s);
      case Populated(yes) =>
        if yes {
          return PopulatedDone;
        }
      match turns[i].poll
      case PollExpires =>
        return PopulatedExpired;
      case PollFails(e) =>
        return PopulatedPollFailed(e);
      case Polled(control, bad) =>
        if control.Some? {
          return PopulatedControl(control.value);
        }
        if bad {
          return PopulatedBad;
        }
    }
    return PopulatedExpired;
  }

  // ---------------------------------------------------------------------------------------
  // The child stopping

  datatype StopWait =
    StopDone | StopExpired | StopPollFailed(e: Errno) | StopControl(event: Event) | StopBad(s: Stale)

  /** A wait on the child that must not reap it; `expected` says that it reports the very signal. */
  datatype ChildRead = ChildUnreadable(e: Errno) | NothingYet | Reported(expected: bool)

  datatype StopTurn = StopTurn(child: ChildRead, poll: Poll)

  function StopOf(turns: seq<StopTurn>): StopWait {
    if turns == [] then StopExpired
    else
      match turns[0].child
      case ChildUnreadable(e) => StopBad(e)
      case Reported(expected) => if expected then StopDone else StopBad(0)
      case NothingYet =>
        match turns[0].poll
        case PollExpires => StopExpired
        case PollFails(e) => StopPollFailed(e)
        case Polled(Some(event), _) => StopControl(event)
        case Polled(None, bad) => if bad then StopBad(0) else StopOf(turns[1..])
  }

  /** The expected stop is the first report, at turn `i`, after silent turns only. */
  predicate StopsAt(turns: seq<StopTurn>, i: nat) {
    && i < |turns| && turns[i].child == Reported(true)
    && forall k :: 0 <= k < i ==> turns[k].child == NothingYet && Uneventful(turns[k].poll)
  }

  lemma {:induction false} StopExactly(turns: seq<StopTurn>)
    ensures StopOf(turns) == StopDone <==> exists i: nat :: StopsAt(turns, i)
  {
    if turns != [] {
      var rest := turns[1..];
      StopExactly(rest);
      if turns[0].child == Reported(true) {
        assert StopsAt(turns, 0);
      } else if turns[0].child == NothingYet && Uneventful(turns[0].poll) {
        forall i: nat | StopsAt(rest, i) ensures StopsAt(turns, i + 1) {
        }
        forall i: nat | StopsAt(turns, i) ensures i > 0 && StopsAt(rest, i - 1) {
        }
      }
    }
  }

  method AwaitStop(turns: seq<StopTurn>) returns (r: StopWait)
    ensures r == StopOf(turns)
  {
    for i := 0 to |turns|
      invariant StopOf(turns) == StopOf(turns[i..])
    {
      assert turns[i..][1..] == turns[i + 1..];
      match turns[i].child
      case ChildUnreadable(e) =>
        return StopBad(e);
      case Reported(expected) =>
        return if expected then StopDone else StopBad(0);
      case NothingYet =>
      match turns[i].poll
      case PollExpires =>
        return StopExpired;
      case PollFails(e) =>
        return StopPollFailed(e);
      case Polled(control, bad) =>
        if control.Some? {
          return StopControl(control.value);
        }
        if bad {
          return StopBad(0);
        }
    }
    return StopExpired;
  }

  // ---------------------------------------------------------------------------------------
  // The child killed and the cgroup empty

  /** `expected` tells whether the first exit report was the kill. */
  datatype KilledWait =
    KilledDone(expected: bool) | KilledExpired | KilledPollFailed(e: Errno) | KilledControl(event: Event)
    | KilledUnreadable(s: Stale) | KilledBad(e: Errno)

  datatype KilledTurn = KilledTurn(events: EventsRead, child: ChildRead, poll: Poll)

  /** The loop from its state: whether the cgroup was seen empty, and the exit report if seen. What
      was seen is not looked at again; `monitor` says whether the control socket is watched. */
  function KilledOf(turns: seq<KilledTurn>, monitor: bool, empty: bool, exit: Option<bool>): KilledWait {
    if turns == [] then KilledExpired
    else
      var turn := turns[0];
      if !empty && turn.events.EventsUnreadable? then KilledUnreadable(turn.events.s)
      else if exit.None? && turn.child.ChildUnreadable? then KilledBad(turn.child.e)
      else
        var emptyNow := EmptyAfter(turn, empty);
        var exitNow := ExitAfter(turn, exit);
        if emptyNow && exitNow.Some? then KilledDone(exitNow.value)
        else
          match turn.poll
          case PollExpires => KilledExpired
          case PollFails(e) => KilledPollFailed(e)
          case Polled(control, bad) =>
            if monitor && control.Some? then KilledControl(control.value)
            else if bad then KilledPollFailed(EBADF)
            else KilledOf(turns[1..], monitor, emptyNow, exitNow)
  }

  predicate EmptyAfter(turn: KilledTurn, empty: bool) {
    empty || turn.events == Populated(false)
  }

  function ExitAfter(turn: KilledTurn, exit: Option<bool>): Option<bool> {
    if exit.None? && turn.child.Reported? then Some(turn.child.expected) else exit
  }

  /** Success means that both were seen: some turn read the cgroup as empty, and the first exit report
      is the one returned. */
  ghost predicate BothSeen(turns: seq<KilledTurn>, empty: bool, exit: Option<bool>, expected: bool) {
    && (empty || exists i :: 0 <= i < |turns| && turns[i].events == Populated(false))
    && (exit == Some(expected) || (exit.None? && exists i :: FirstReport(turns, i, expected)))
  }

  predicate FirstReport(turns: seq<KilledTurn>, i: nat, expected: bool) {
    && i < |turns| && turns[i].child == Reported(expected)
    && forall k :: 0 <= k < i ==> turns[k].child == NothingYet
  }

  lemma {:induction false} KilledSawBoth(turns: seq<KilledTurn>, monitor: bool, empty: bool, exit: Option<bool>)
    ensures KilledOf(turns, monitor, empty, exit).KilledDone? ==>
              BothSeen(turns, empty, exit, KilledOf(turns, monitor, empty, exit).expected)
  {
    var r := KilledOf(turns, monitor, empty, exit);
    if turns != [] && r.KilledDone? {
      var rest, emptyNow, exitNow := turns[1..], EmptyAfter(turns[0], empty), ExitAfter(turns[0], exit);
      if exit.None? && turns[0].child.Reported? {
        assert FirstReport(turns, 0, turns[0].child.expected);
      }
      if !(emptyNow && exitNow.Some?) {
        KilledSawBoth(rest, monitor, emptyNow, exitNow);
        if exitNow.None? {
          var i: nat :| FirstReport(rest, i, r.expected);
          assert FirstReport(turns, i + 1, r.expected);
        }
        if !emptyNow {
          var i :| 0 <= i < |rest| && rest[i].events == Populated(false);
          var k := i + 1;
          assert turns[k].events == Populated(false);
        }
      }
    }
  }

  /** Both readings work and the poll reports nothing that ends the loop. */
  predicate Calm(turn: KilledTurn, monitor: bool) {
    && turn.events.Populated? && !turn.child.ChildUnreadable?
    && turn.poll.Polled? && (monitor ==> turn.poll.control.None?) && !turn.poll.bad
  }

  /** The converse: calm turns that show both are enough. */
  lemma {:induction false} CalmTurnsShowBoth(
    turns: seq<KilledTurn>, monitor: bool, empty: bool, exit: Option<bool>, expected: bool)
    requires (forall i :: 0 <= i < |turns| ==> Calm(turns[i], monitor)) && BothSeen(turns, empty, exit, expected)
    requires turns != []
    ensures KilledOf(turns, monitor, empty, exit) == KilledDone(expected)
  {
    var rest, emptyNow, exitNow := turns[1..], EmptyAfter(turns[0], empty), ExitAfter(turns[0], exit);
    if !(emptyNow && exitNow.Some?) {
      if exitNow.None? {
        var i: nat :| FirstReport(turns, i, expected);
        assert i > 0 && FirstReport(rest, i - 1, expected);
      }
      if !emptyNow {
        var i :| 0 <= i < |turns| && turns[i].events == Populated(false);
        var k := i - 1;
        assert i > 0 && rest[k].events == Populated(false);
      }
      CalmTurnsShowBoth(rest, monitor, emptyNow, exitNow, expected);
    }
  }

  method AwaitKilled(turns: seq<KilledTurn>, monitor: bool) returns (r: KilledWait)
    ensures r == KilledOf(turns, monitor, false, None)
  {
    var empty, exit: Option<bool> := false, None;
    for i := 0 to |turns|
      invariant KilledOf(turns, monitor, false, None) == KilledOf(turns[i..], monitor, empty, exit)
    {
      assert turns[i..][1..] == turns[i + 1..];
      if !empty {
        match turns[i].events
        case EventsUnreadable(s) =>
          return KilledUnreadable(s);
        case Populated(yes) =>
          empty := !yes;
      }
      if exit.None? {
        match turns[i].child
        case ChildUnreadable(e) =>
          return KilledBad(e);
        case NothingYet =>
        case Reported(expected) =>
          exit := Some(expected);
      }
      if empty && exit.Some? {
        return KilledDone(exit.value);
      }
      match turns[i].poll
      case PollExpires =>
        return KilledExpired;
      case PollFails(e) =>
        return KilledPollFailed(e);
      case Polled(control, bad) =>
        if monitor && control.Some? {
          return KilledControl(control.value);
        }
        if bad {
          return KilledPollFailed(EBADF);
        }
    }
    return KilledExpired;
  }

  // ---------------------------------------------------------------------------------------
  // Every result is possible

  function ReadyTurnsFor(r: ReadyWait): (turns: seq<ReadyTurn>)
    ensures ReadyOf(turns, false) == r
  {
    match r
    case ReadyDone =>
      var turns := [ReadyTurn(None, PipeReadable(Bytes(RECORD_MAGIC + [0, 0, 0, 0])), false),
                    ReadyTurn(None, PipeReadable(Bytes([])), false)];
      assert turns[1..][0] == turns[1];
      turns
    case ReadyExpired => [ReadyTurnExpires]
    case ReadyPollFailed(e) => [ReadyTurnFails(e)]
    case ReadyControl(event) => [ReadyTurn(Some(event), PipeQuiet, false)]
    case ReadyBad(c) => [ReadyTurn(None, PipeReadable(Bytes(RECORD_MAGIC + [1, 0, c / 256, c % 256])), false)]
  }

  function PopulatedTurnsFor(r: PopulatedWait): (turns: seq<PopulatedTurn>)
    ensures PopulatedOf(turns) == r
  {
    match r
    case PopulatedDone => [PopulatedTurn(Populated(true), PollExpires)]
    case PopulatedExpired => [PopulatedTurn(Populated(false), PollExpires)]
    case PopulatedPollFailed(e) => [PopulatedTurn(Populated(false), PollFails(e))]
    case PopulatedControl(event) => [PopulatedTurn(Populated(false), Polled(Some(event), false))]
    case PopulatedUnreadable(s) => [PopulatedTurn(EventsUnreadable(s), PollExpires)]
    case PopulatedBad => [PopulatedTurn(Populated(false), Polled(None, true))]
  }

  function StopTurnsFor(r: StopWait): (turns: seq<StopTurn>)
    ensures StopOf(turns) == r
  {
    match r
    case StopDone => [StopTurn(Reported(true), PollExpires)]
    case StopExpired => [StopTurn(NothingYet, PollExpires)]
    case StopPollFailed(e) => [StopTurn(NothingYet, PollFails(e))]
    case StopControl(event) => [StopTurn(NothingYet, Polled(Some(event), false))]
    case StopBad(s) => [StopTurn(if s == 0 then Reported(false) else ChildUnreadable(s), PollExpires)]
  }

  function KilledTurnsFor(r: KilledWait): (turns: seq<KilledTurn>)
    ensures KilledOf(turns, true, false, None) == r
    ensures KilledOf(turns, false, false, None).KilledDone? <==> r.KilledDone?
  {
    match r
    case KilledDone(expected) => [KilledTurn(Populated(false), Reported(expected), PollExpires)]
    case KilledExpired => [KilledTurn(Populated(true), NothingYet, PollExpires)]
    case KilledPollFailed(e) => [KilledTurn(Populated(true), NothingYet, PollFails(e))]
    case KilledControl(event) => [KilledTurn(Populated(true), NothingYet, Polled(Some(event), false))]
    case KilledUnreadable(s) => [KilledTurn(EventsUnreadable(s), NothingYet, PollExpires)]
    case KilledBad(e) => [KilledTurn(Populated(true), ChildUnreadable(e), PollExpires)]
  }
}
