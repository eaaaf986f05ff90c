/**
  Waiting for the launcher: two bounded passes that share one cleanup deadline, signal a pid
  only while it is known to be an unreaped child, and survive an exception at any clock or
  wait call. The kernel answers from scripts; running out of a script counts as an exception,
  so every finite behaviour is covered.
 */
module Wait {
  import opened Common

  const ECHILD := 10
  const ETIMEDOUT := 110
  const EOVERFLOW := 75

  datatype ClockAnswer = Tick(ns: int) | ClockRaises

  /** Answers of a non-blocking wait on the launcher's own pid. */
  datatype WaitAnswer =
    Running | Exited(code: int) | NoChild | OtherPid | Interrupted | WaitFails(e: Option<int>) | WaitRaises

  datatype KillAnswer = Delivered | AlreadyGone | KillFails(e: Option<int>)

  /** Answers of a non-blocking wait on any child. */
  datatype ReapAnswer = AChild | NoneReady | NoChildren | ReapInterrupted | ReapFails(e: Option<int>) | ReapRaises

  datatype Event = Waited(answer: WaitAnswer) | Killed(kill: KillAnswer) | ReapedAny(reap: ReapAnswer)

  /** The launcher is no longer ours to signal: it was reaped, or is not our child. */
  predicate Disowned(answer: WaitAnswer) {
    answer.Exited? || answer.NoChild?
  }

  /** Once a pid is reaped or disowned, its number may be reused, but never by our own child
      under this wait: no later answer calls it running or hands over its status. */
  predicate Lawful(waits: seq<WaitAnswer>) {
    forall i, j :: 0 <= i < j < |waits| && Disowned(waits[i]) ==> !waits[j].Running? && !waits[j].Exited?
  }

  predicate Nondecreasing(clocks: seq<ClockAnswer>) {
    forall i, j :: 0 <= i < j < |clocks| && clocks[i].Tick? && clocks[j].Tick? ==> clocks[i].ns <= clocks[j].ns
  }

  /** The launcher is left alone to exit with code 0. */
  predicate OrderlyAnswer(answer: WaitAnswer) {
    answer.Running? || answer.Interrupted? || answer == Exited(0)
  }

  predicate Orderly(waits: seq<WaitAnswer>) {
    forall a :: a in waits ==> OrderlyAnswer(a)
  }

  predicate OrderlyReaps(reaps: seq<ReapAnswer>) {
    forall a :: a in reaps ==> !a.ReapFails?
  }

  ghost predicate Lost(log: seq<Event>) {
    exists i :: 0 <= i < |log| && log[i].Waited? && Disowned(log[i].answer)
  }

  /** Every signal comes right after a wait that found the launcher still running, and no
      earlier wait had reaped or disowned it. */
  ghost predicate KillSafe(log: seq<Event>) {
    forall i :: 0 <= i < |log| && log[i].Killed? ==> i > 0 && log[i - 1] == Waited(Running) && !Lost(log[..i])
  }

  class Machine {
    var clocks: seq<ClockAnswer>
    var waits: seq<WaitAnswer>
    var kills: seq<KillAnswer>
    var reaps: seq<ReapAnswer>
    ghost var log: seq<Event>
    ghost var now: int
    /** How many calls have raised so far. */
    ghost var raised: nat

    /** What any kernel guarantees about its remaining answers. */
    ghost predicate Valid()
      reads this`clocks, this`waits, this`log, this`now
    {
      && Nondecreasing(clocks)
      && (forall i :: 0 <= i < |clocks| && clocks[i].Tick? ==> now <= clocks[i].ns)
      && Lawful(waits)
      && (Lost(log) ==> forall i :: 0 <= i < |waits| ==> !waits[i].Running? && !waits[i].Exited?)
      && KillSafe(log)
    }

    constructor (clocks: seq<ClockAnswer>, waits: seq<WaitAnswer>, kills: seq<KillAnswer>, reaps: seq<ReapAnswer>,
                 ghost now: int)
      requires Nondecreasing(clocks) && Lawful(waits)
      requires forall i :: 0 <= i < |clocks| && clocks[i].Tick? ==> now <= clocks[i].ns
      ensures Valid() && log == [] && this.now == now && raised == 0
      ensures this.clocks == clocks && this.waits == waits && this.kills == kills && this.reaps == reaps
    {
      this.clocks, this.waits, this.kills, this.reaps := clocks, waits, kills, reaps;
      log := [];
      this.now := now;
      raised := 0;
    }

    method Now() returns (r: Option<int>)
      requires Valid()
      modifies this`clocks, this`now, this`raised
      ensures Valid() && now >= old(now)
      ensures old(clocks) != [] && old(clocks)[0].Tick? ==> r.Some?
      ensures r.Some? ==> r.value == now && raised == old(raised)
      ensures r.None? ==> raised == old(raised) + 1
      ensures |clocks| <= |old(clocks)|
    {
      r := None;
      if clocks != [] {
        if clocks[0].Tick? {
          r := Some(clocks[0].ns);
          now := clocks[0].ns;
        }
        clocks := clocks[1..];
      }
      if r.None? {
        raised := raised + 1;
      }
    }

    method WaitPid() returns (r: WaitAnswer)
      requires Valid()
      modifies this`waits, this`log, this`raised
      ensures Valid() && log == old(log) + [Waited(r)]
      ensures r.Running? ==> !Lost(log)
      ensures Lost(log) <==> Lost(old(log)) || Disowned(r)
      ensures !r.WaitRaises? ==> |waits| < |old(waits)|
      ensures raised == if r.WaitRaises? then old(raised) + 1 else old(raised)
      ensures Orderly(old(waits)) ==> Orderly(waits) && (r.WaitRaises? || OrderlyAnswer(r))
    {
      ghost var before := log;
      if waits == [] {
        r := WaitRaises;
      } else {
        r := waits[0];
        waits := waits[1..];
      }
      if r.WaitRaises? {
        raised := raised + 1;
      }
      log := log + [Waited(r)];
      LogAppend(before, Waited(r));
    }

    method Kill() returns (r: KillAnswer)
      requires Valid() && log != [] && log[|log| - 1] == Waited(Running) && !Lost(log)
      modifies this`kills, this`log
      ensures Valid() && log == old(log) + [Killed(r)] && !Lost(log)
    {
      ghost var before := log;
      r := AlreadyGone;
      if kills != [] {
        r := kills[0];
        kills := kills[1..];
      }
      log := log + [Killed(r)];
      LogAppend(before, Killed(r));
    }

    method ReapAny() returns (r: ReapAnswer)
      requires Valid()
      modifies this`reaps, this`log, this`raised
      ensures Valid() && log == old(log) + [ReapedAny(r)]
      ensures !r.ReapRaises? ==> |reaps| < |old(reaps)|
      ensures old(reaps) != [] ==> r == old(reaps)[0] && reaps == old(reaps)[1..]
      ensures raised == if r.ReapRaises? then old(raised) + 1 else old(raised)
      ensures OrderlyReaps(old(reaps)) ==> OrderlyReaps(reaps) && !r.ReapFails?
    {
      ghost var before := log;
      r := ReapRaises;
      if reaps != [] {
        r := reaps[0];
        reaps := reaps[1..];
      }
      if r.ReapRaises? {
        raised := raised + 1;
      }
      log := log + [ReapedAny(r)];
      LogAppend(before, ReapedAny(r));
    }
  }

  /** The reaper stops here because the clock raised. */
  ghost method NoteReapRaised(m: Machine)
    requires m.Valid()
    modifies m`log
    ensures m.Valid() && m.log == old(m.log) + [ReapedAny(ReapRaises)]
  {
    m.log := m.log + [ReapedAny(ReapRaises)];
    LogAppend(old(m.log), ReapedAny(ReapRaises));
  }

  lemma LogAppend(log: seq<Event>, event: Event)
    requires KillSafe(log)
    requires event.Killed? ==> log != [] && log[|log| - 1] == Waited(Running) && !Lost(log)
    ensures KillSafe(log + [event])
    ensures Lost(log + [event]) <==> Lost(log) || (event.Waited? && Disowned(event.answer))
  {
    var log' := log + [event];
    forall i | 0 <= i < |log'| && log'[i].Killed?
      ensures i > 0 && log'[i - 1] == Waited(Running) && !Lost(log'[..i])
    {
      if i < |log| {
        assert log'[i] == log[i] && log'[..i] == log[..i];
      } else {
        assert log'[..i] == log;
      }
    }
    if Lost(log) {
      var i :| 0 <= i < |log| && log[i].Waited? && Disowned(log[i].answer);
      assert log'[i] == log[i];
    }
    if event.Waited? && Disowned(event.answer) {
      assert log'[|log|] == event;
    }
  }

  // ---------------------------------------------------------------------------------------
  // The shared cleanup window

  class Window {
    var deadline: Option<int>

    constructor ()
      ensures deadline == None
    {
      deadline := None;
    }

    /** Set the deadline the first time it is needed; `None` means the clock raised. */
    method Ensure(m: Machine, overall: int, timeout: nat) returns (r: Option<int>)
      requires m.Valid()
      modifies this, m`clocks, m`now, m`raised
      ensures m.Valid() && m.now >= old(m.now)
      ensures old(deadline).Some? ==> deadline == old(deadline) && r == deadline && m.raised == old(m.raised)
      ensures old(deadline).None? ==> deadline == r
      ensures old(deadline).None? && r.Some? ==> r.value == Min(overall, m.now + timeout)
      ensures m.raised == if r.None? then old(m.raised) + 1 else old(m.raised)
    {
      if deadline.None? {
        var now := m.Now();
        if now.None? {
          return None;
        }
        deadline := Some(Min(overall, now.value + timeout));
      }
      return deadline;
    }
  }

  function Min(a: int, b: int): (r: int)
    ensures r <= a && r <= b && (r == a || r == b)
  {
    if a <= b then a else b
  }

  /** A deadline first fixed while the clock stood between `low` and `high`. */
  predicate FixedBetween(deadline: int, low: int, high: int, overall: int, timeout: nat) {
    Min(overall, low + timeout) <= deadline <= Min(overall, high + timeout)
  }

  // ---------------------------------------------------------------------------------------
  // One pass

  datatype Observation = Observation(
    returncode: Option<int>, reaped: bool, attempted: bool, signalSent: bool, killErrno: Option<ErrorNumber>,
    waitErrno: Option<ErrorNumber>, deadline: int, exitDeadlineExceeded: bool)

  ghost predicate AnyKill(events: seq<Event>) {
    exists i :: 0 <= i < |events| && events[i].Killed?
  }

  ghost predicate OneKillAtMost(events: seq<Event>) {
    forall i, j :: 0 <= i < j < |events| ==> !(events[i].Killed? && events[j].Killed?)
  }

  /** The last wait found the launcher still running. */
  predicate StillRunning(events: seq<Event>) {
    events != [] && (events[|events| - 1] == Waited(Running) || events[|events| - 1].Killed?)
  }

  /** The exit code and wait error that the last event calls for. */
  predicate Explained(o: Observation, last: Event) {
    match last
    case Waited(Exited(code)) => o.returncode == Some(code)
    case Waited(NoChild) => o.waitErrno == Some(ECHILD)
    case Waited(OtherPid) => o.waitErrno == Some(ECHILD)
    case Waited(WaitFails(e)) => o.waitErrno == Bounded(e)
    case Waited(Running) => o.waitErrno == Some(ETIMEDOUT)
    case Killed(_) => o.waitErrno == Some(ETIMEDOUT)
    case _ => false
  }

  /** What an observation claims did happen. */
  ghost predicate Truthful(o: Observation, events: seq<Event>) {
    && (o.reaped <==> o.returncode.Some?)
    && (o.reaped ==> o.waitErrno.None?)
    && (o.reaped ==> events != [] && events[|events| - 1] == Waited(Exited(o.returncode.value)))
    && (o.attempted ==> AnyKill(events))
    && (o.signalSent ==> o.attempted && Killed(Delivered) in events)
    && (o.killErrno.Some? ==> o.attempted && !o.signalSent && Killed(KillFails(Some(o.killErrno.value))) in events)
  }

  /** What happened that an observation must claim. */
  ghost predicate Complete(o: Observation, events: seq<Event>) {
    && events != [] && Explained(o, events[|events| - 1])
    && (AnyKill(events) ==> o.attempted)
    && (Killed(Delivered) in events ==> o.signalSent)
  }

  /** Only waits on the launcher and signals to it. */
  predicate WaitEvents(events: seq<Event>) {
    forall e :: e in events ==> e.Waited? || e.Killed?
  }

  predicate OrderlyEvents(events: seq<Event>) {
    forall e :: e in events && e.Waited? && !e.answer.WaitRaises? ==> OrderlyAnswer(e.answer)
  }

  predicate WindowBelow(deadline: Option<int>, overall: int) {
    deadline.Some? ==> deadline.value <= overall
  }

  /** What a pass has done to the launcher so far. */
  datatype Signals = Signals(attempted: bool, sent: bool, errno: Option<ErrorNumber>)

  ghost predicate SignalsFit(signals: Signals, events: seq<Event>) {
    && (signals.attempted <==> AnyKill(events))
    && (signals.sent <==> Killed(Delivered) in events)
    && (signals.sent ==> signals.attempted)
    && (signals.errno.Some? ==>
          signals.attempted && !signals.sent && Killed(KillFails(Some(signals.errno.value))) in events)
    && OneKillAtMost(events)
  }

  datatype Progress = Continue | Raised | Done(observation: Observation)

  lemma KillAppend(events: seq<Event>, event: Event)
    ensures AnyKill(events + [event]) <==> AnyKill(events) || event.Killed?
    ensures OneKillAtMost(events) && !(AnyKill(events) && event.Killed?) ==> OneKillAtMost(events + [event])
  {
    var all := events + [event];
    assert all[|events|] == event;
    if AnyKill(events) {
      var i :| 0 <= i < |events| && events[i].Killed?;
      assert all[i].Killed?;
    }
    if AnyKill(all) && !event.Killed? {
      var i :| 0 <= i < |all| && all[i].Killed?;
      assert events[i].Killed?;
    }
  }

  lemma SignalsAfterWait(signals: Signals, events: seq<Event>, event: Event)
    requires SignalsFit(signals, events) && event.Waited?
    ensures SignalsFit(signals, events + [event])
  {
    KillAppend(events, event);
  }

  lemma SignalsAfterKill(events: seq<Event>, answer: KillAnswer)
    requires SignalsFit(Signals(false, false, None), events)
    ensures SignalsFit(SignalsOf(answer), events + [Killed(answer)])
  {
    KillAppend(events, Killed(answer));
    assert !AnyKill(events);
    assert Killed(Delivered) in events + [Killed(answer)] <==> answer == Delivered;
    assert Killed(answer) in events + [Killed(answer)];
  }

  function SignalsOf(answer: KillAnswer): Signals {
    Signals(true, answer.Delivered?, if answer.KillFails? then Bounded(answer.e) else None)
  }

  /** When a pass may still be undecided about a running launcher: its active deadline. */
  function ActiveDeadline(window: Option<int>, exitDeadline: int, overall: int): int {
    if window.Some? then window.value else Min(exitDeadline, overall)
  }

  /** How the time of a pass shows in its observation; the clock went from `low` to `high`. */
  ghost predicate Timed(
    o: Observation, events: seq<Event>, window: Option<int>, low: int, high: int, exitDeadline: int, overall: int)
  {
    && (!o.exitDeadlineExceeded ==> low < exitDeadline)
    && (o.exitDeadlineExceeded ==> high >= exitDeadline || StillRunning(events))
    && (StillRunning(events) ==>
          high >= if AnyKill(events) then o.deadline else ActiveDeadline(window, exitDeadline, overall))
  }

  /** One pass. It raises exactly when a call it makes raises; it signals at most once, only when
      asked to or after the exit deadline, and when asked to it never leaves a launcher it found
      running unsignalled; it gives up on a running launcher only after its active deadline. */
  method WaitLauncher(
    m: Machine, window: Window, exitDeadline: int, overall: int, timeout: nat, terminateFirst: bool)
    returns (r: Option<Observation>)
    requires m.Valid() && WindowBelow(window.deadline, overall)
    modifies m, window
    ensures m.Valid() && m.now >= old(m.now) && m.reaps == old(m.reaps)
    ensures old(m.log) <= m.log && m.log != old(m.log) && WaitEvents(m.log[|old(m.log)|..])
    ensures old(window.deadline).Some? ==> window.deadline == old(window.deadline)
    ensures old(window.deadline).None? && window.deadline.Some? ==>
              FixedBetween(window.deadline.value, old(m.now), m.now, overall, timeout)
    ensures r.Some? ==> window.deadline == Some(r.value.deadline)
    ensures r.Some? ==> Truthful(r.value, m.log[|old(m.log)|..]) && Complete(r.value, m.log[|old(m.log)|..])
    ensures r.Some? && Lost(m.log) && !Lost(old(m.log)) && !r.value.reaped ==> r.value.waitErrno == Some(ECHILD)
    ensures m.raised == if r.None? then old(m.raised) + 1 else old(m.raised)
    ensures OneKillAtMost(m.log[|old(m.log)|..])
    ensures AnyKill(m.log[|old(m.log)|..]) ==> terminateFirst || m.now >= exitDeadline
    ensures r.Some? && terminateFirst && Waited(Running) in m.log[|old(m.log)|..] ==> AnyKill(m.log[|old(m.log)|..])
    ensures r.Some? ==> Timed(r.value, m.log[|old(m.log)|..], old(window.deadline), old(m.now), m.now, exitDeadline,
                              overall)
    ensures Orderly(old(m.waits)) ==> OrderlyEvents(m.log[|old(m.log)|..])
  {
    hide Machine.Valid, Lost, Truthful, Complete, Timed, AnyKill, OneKillAtMost, Orderly, OrderlyEvents;
    ghost var start, events := m.log, [];
    var signals := Signals(false, false, None);
    NoSignalsYet();
    while true
      invariant m.Valid() && m.now >= old(m.now) && m.reaps == old(m.reaps) && m.raised == old(m.raised)
      invariant m.log == start + events && WaitEvents(events)
      invariant old(window.deadline).Some? ==> window.deadline == old(window.deadline)
      invariant old(window.deadline).None? && window.deadline.Some? ==>
                  FixedBetween(window.deadline.value, old(m.now), m.now, overall, timeout) && signals.attempted
      invariant Lost(m.log) ==> Lost(start)
      invariant SignalsFit(signals, events)
      invariant signals.attempted ==> window.deadline.Some? && (terminateFirst || m.now >= exitDeadline)
      invariant terminateFirst && Waited(Running) in events ==> signals.attempted
      invariant Orderly(old(m.waits)) ==> Orderly(m.waits) && OrderlyEvents(events)
      decreases |m.waits|
    {
      ghost var was, low := window.deadline, m.now;
      var progress;
      progress, signals, events :=
        Poll(m, window, exitDeadline, overall, timeout, terminateFirst, signals, start, events);
      assert m.log[|start|..] == events;
      match progress
      case Continue =>
      case Raised =>
        return None;
      case Done(observation) =>
        TimedFromStart(observation, events, old(window.deadline), was, old(m.now), low, m.now, exitDeadline, overall);
        return Some(observation);
    }
  }

  lemma NoSignalsYet()
    ensures SignalsFit(Signals(false, false, None), []) && OrderlyEvents([])
  {
  }

  lemma TimedFromStart(
    o: Observation, events: seq<Event>, first: Option<int>, window: Option<int>, low: int, middle: int, high: int,
    exitDeadline: int, overall: int)
    requires Timed(o, events, window, middle, high, exitDeadline, overall) && low <= middle
    requires window == first || AnyKill(events)
    ensures Timed(o, events, first, low, high, exitDeadline, overall)
  {
  }

  /** One turn of the loop: a wait, and what its answer calls for. */
  method Poll(
    m: Machine, window: Window, exitDeadline: int, overall: int, timeout: nat, terminateFirst: bool,
    signals: Signals, ghost start: seq<Event>, ghost events: seq<Event>)
    returns (progress: Progress, signals': Signals, ghost events': seq<Event>)
    requires m.Valid()
    requires m.log == start + events && WaitEvents(events) && SignalsFit(signals, events)
    requires signals.attempted ==> window.deadline.Some?
    modifies m, window
    ensures m.Valid() && m.now >= old(m.now) && m.reaps == old(m.reaps)
    ensures m.raised == if progress.Raised? then old(m.raised) + 1 else old(m.raised)
    ensures m.log == start + events' && WaitEvents(events') && SignalsFit(signals', events') && events' != []
    ensures old(window.deadline).Some? ==> window.deadline == old(window.deadline)
    ensures old(window.deadline).None? && window.deadline.Some? ==>
              && FixedBetween(window.deadline.value, old(m.now), m.now, overall, timeout)
              && (progress.Continue? ==> signals'.attempted)
    ensures signals.attempted ==> signals' == signals
    ensures signals'.attempted ==> window.deadline.Some?
    ensures signals'.attempted && !signals.attempted ==> terminateFirst || m.now >= exitDeadline
    ensures !progress.Raised? && terminateFirst && (Waited(Running) in events ==> signals.attempted) ==>
              (Waited(Running) in events' ==> signals'.attempted)
    ensures progress.Continue? ==> |m.waits| < |old(m.waits)| && (Lost(m.log) ==> Lost(old(m.log)))
    ensures progress.Done? ==>
              var o := progress.observation;
              && window.deadline == Some(o.deadline) && Truthful(o, events') && Complete(o, events')
              && (Lost(m.log) && !o.reaped ==> Lost(old(m.log)) || o.waitErrno == Some(ECHILD))
              && Timed(o, events', old(window.deadline), old(m.now), m.now, exitDeadline, overall)
    ensures Orderly(old(m.waits)) ==> Orderly(m.waits) && (OrderlyEvents(events) ==> OrderlyEvents(events'))
  {
    hide Machine.Valid, Lost, AnyKill, OneKillAtMost, Orderly, OrderlyAnswer;
    signals' := signals;
    var answer := m.WaitPid();
    events' := events + [Waited(answer)];
    SignalsAfterWait(signals, events, Waited(answer));
    assert m.log == start + events';
    match answer
    case WaitRaises =>
      return Raised, signals, events';
    case Interrupted =>
      return Continue, signals, events';
    case NoChild =>
      progress := Unreaped(m, window, exitDeadline, overall, timeout, signals, Some(ECHILD));
    case OtherPid =>
      progress := Unreaped(m, window, exitDeadline, overall, timeout, signals, Some(ECHILD));
    case WaitFails(e) =>
      progress := Unreaped(m, window, exitDeadline, overall, timeout, signals, Bounded(e));
    case Exited(code) =>
      progress := Reaped(m, window, exitDeadline, overall, timeout, signals, code);
    case Running =>
      progress, signals', events' := Decide(m, window, exitDeadline, overall, timeout, terminateFirst, signals, start,
                                            events');
  }

  /** What to do about a launcher found running: signal it, wait on, or give up. */
  method Decide(
    m: Machine, window: Window, exitDeadline: int, overall: int, timeout: nat, terminateFirst: bool,
    signals: Signals, ghost start: seq<Event>, ghost events: seq<Event>)
    returns (progress: Progress, signals': Signals, ghost events': seq<Event>)
    requires m.Valid() && !Lost(m.log)
    requires m.log == start + events && SignalsFit(signals, events)
    requires signals.attempted ==> window.deadline.Some?
    requires events != [] && events[|events| - 1] == Waited(Running)
    modifies m`clocks, m`now, m`raised, m`kills, m`log, window
    ensures m.Valid() && m.now >= old(m.now) && !Lost(m.log)
    ensures m.raised == if progress.Raised? then old(m.raised) + 1 else old(m.raised)
    ensures m.log == start + events' && SignalsFit(signals', events')
    ensures events <= events' && |events'| <= |events| + 1
    ensures events' != events ==> events'[|events|].Killed?
    ensures old(window.deadline).Some? ==> window.deadline == old(window.deadline)
    ensures old(window.deadline).None? && window.deadline.Some? ==>
              && FixedBetween(window.deadline.value, old(m.now), m.now, overall, timeout)
              && (progress.Continue? ==> signals'.attempted)
    ensures signals.attempted ==> signals' == signals
    ensures signals'.attempted ==> window.deadline.Some?
    ensures signals'.attempted && !signals.attempted ==> terminateFirst || m.now >= exitDeadline
    ensures !progress.Raised? && terminateFirst ==> signals'.attempted
    ensures progress.Done? ==>
              var o := progress.observation;
              && window.deadline == Some(o.deadline) && Truthful(o, events') && Complete(o, events')
              && Timed(o, events', old(window.deadline), old(m.now), m.now, exitDeadline, overall)
  {
    hide Machine.Valid, Lost, AnyKill, OneKillAtMost;
    signals', events' := signals, events;
    var now := m.Now();
    if now.None? {
      return Raised, signals, events;
    }
    if !signals.attempted && (terminateFirst || now.value >= exitDeadline) {
      var sent := Terminate(m, window, overall, timeout);
      if sent.None? {
        return Raised, signals, events;
      }
      SignalsAfterKill(events, sent.value);
      signals' := SignalsOf(sent.value);
      events' := events + [Killed(sent.value)];
    }
    var active := if window.deadline.Some? then window.deadline.value else Min(exitDeadline, overall);
    if now.value < active {
      return Continue, signals', events';
    }
    var deadline := window.Ensure(m, overall, timeout);
    if deadline.None? {
      return Raised, signals', events';
    }
    progress := Done(Observation(None, false, signals'.attempted, signals'.sent, signals'.errno, Some(ETIMEDOUT),
                                 deadline.value, true));
  }

  /** Fix the deadline, then signal; nothing is sent when the clock raises. */
  method Terminate(m: Machine, window: Window, overall: int, timeout: nat) returns (r: Option<KillAnswer>)
    requires m.Valid() && m.log != [] && m.log[|m.log| - 1] == Waited(Running) && !Lost(m.log)
    modifies m`clocks, m`now, m`raised, m`kills, m`log, window
    ensures m.Valid() && m.now >= old(m.now)
    ensures m.log == if r.Some? then old(m.log) + [Killed(r.value)] else old(m.log)
    ensures !Lost(m.log)
    ensures m.raised == if r.None? then old(m.raised) + 1 else old(m.raised)
    ensures r.Some? ==> window.deadline.Some?
    ensures old(window.deadline).Some? ==> window.deadline == old(window.deadline)
    ensures old(window.deadline).None? && window.deadline.Some? ==>
              FixedBetween(window.deadline.value, old(m.now), m.now, overall, timeout)
  {
    var deadline := window.Ensure(m, overall, timeout);
    if deadline.None? {
      return None;
    }
    var sent := m.Kill();
    return Some(sent);
  }

  method Reaped(
    m: Machine, window: Window, exitDeadline: int, overall: int, timeout: nat, signals: Signals, code: int)
    returns (progress: Progress)
    requires m.Valid()
    modifies window, m`clocks, m`now, m`raised
    ensures m.Valid() && m.now >= old(m.now)
    ensures old(window.deadline).Some? ==> window.deadline == old(window.deadline)
    ensures old(window.deadline).None? && window.deadline.Some? ==>
              FixedBetween(window.deadline.value, old(m.now), m.now, overall, timeout)
    ensures progress.Raised? || progress.Done?
    ensures m.raised == if progress.Raised? then old(m.raised) + 1 else old(m.raised)
    ensures progress.Done? ==>
              var o := progress.observation;
              && window.deadline == Some(o.deadline)
              && o == Observation(Some(code), true, signals.attempted, signals.sent, signals.errno, None,
                                  o.deadline, o.exitDeadlineExceeded)
              && (if o.exitDeadlineExceeded then m.now >= exitDeadline else old(m.now) < exitDeadline)
  {
    hide Machine.Valid;
    var observed := m.Now();
    if observed.None? {
      return Raised;
    }
    var deadline := window.Ensure(m, overall, timeout);
    if deadline.None? {
      return Raised;
    }
    return Done(Observation(Some(code), true, signals.attempted, signals.sent, signals.errno, None, deadline.value,
                            observed.value >= exitDeadline));
  }

  /** The ways out of a pass that do not reap: both remaining clock readings can still raise. */
  method Unreaped(
    m: Machine, window: Window, exitDeadline: int, overall: int, timeout: nat, signals: Signals,
    waitErrno: Option<ErrorNumber>)
    returns (progress: Progress)
    requires m.Valid()
    modifies window, m`clocks, m`now, m`raised
    ensures m.Valid() && m.now >= old(m.now)
    ensures old(window.deadline).Some? ==> window.deadline == old(window.deadline)
    ensures old(window.deadline).None? && window.deadline.Some? ==>
              FixedBetween(window.deadline.value, old(m.now), m.now, overall, timeout)
    ensures progress.Raised? || progress.Done?
    ensures m.raised == if progress.Raised? then old(m.raised) + 1 else old(m.raised)
    ensures progress.Done? ==>
              var o := progress.observation;
              && window.deadline == Some(o.deadline)
              && o == Observation(None, false, signals.attempted, signals.sent, signals.errno, waitErrno,
                                  o.deadline, o.exitDeadlineExceeded)
              && (if o.exitDeadlineExceeded then m.now >= exitDeadline else old(m.now) < exitDeadline)
  {
    hide Machine.Valid;
    var deadline := window.Ensure(m, overall, timeout);
    if deadline.None? {
      return Raised;
    }
    var now := m.Now();
    if now.None? {
      return Raised;
    }
    return Done(Observation(None, false, signals.attempted, signals.sent, signals.errno, waitErrno,
                            deadline.value, now.value >= exitDeadline));
  }

  // ---------------------------------------------------------------------------------------
  // Both passes

  /** Two passes at most. The evidence never claims what did not happen; it omits nothing
      unless a call raised; only two raising calls leave no evidence at all. */
  method WaitLauncherResilient(
    m: Machine, window: Window, exitDeadline: int, overall: int, timeout: nat, terminateFirst: bool)
    returns (r: Option<Observation>, recovered: bool)
    requires m.Valid() && window.deadline.None?
    modifies m, window
    ensures m.Valid() && m.now >= old(m.now) && m.reaps == old(m.reaps) && KillSafe(m.log)
    ensures old(m.log) <= m.log && m.log != old(m.log) && WaitEvents(m.log[|old(m.log)|..])
    ensures window.deadline.Some? && Min(overall, old(m.now) + timeout) <= window.deadline.value <= overall
    ensures m.raised == old(m.raised) ==> window.deadline.value <= m.now + timeout
    ensures r.Some? ==> r.value.deadline == window.deadline.value
    ensures r.Some? ==> Truthful(r.value, m.log[|old(m.log)|..])
    ensures r.Some? && (!recovered || m.raised == old(m.raised)) ==> Complete(r.value, m.log[|old(m.log)|..])
    ensures !recovered ==>
              r.Some? && m.raised == old(m.raised) && (r.value.reaped || r.value.waitErrno == Some(ECHILD))
    ensures r.None? ==> m.raised >= old(m.raised) + 2
    ensures m.raised >= old(m.raised)
    ensures Orderly(old(m.waits)) && m.raised == old(m.raised) && m.now < exitDeadline <= overall && !terminateFirst ==>
              !recovered && r.Some? && r.value == Exits(0, window.deadline.value)
  {
    hide Machine.Valid, Lost, Truthful, Complete, Timed, AnyKill, OneKillAtMost, Orderly, OrderlyEvents;
    ghost var start := m.log;
    recovered := false;
    var first := WaitLauncher(m, window, exitDeadline, overall, timeout, terminateFirst);
    if Orderly(old(m.waits)) && first.Some? && m.now < exitDeadline <= overall && !terminateFirst {
      OrderlyExit(first.value, m.log[|start|..], old(m.now), m.now, exitDeadline, overall);
    }
    if first.Some? && (first.value.reaped || first.value.waitErrno == Some(ECHILD)) {
      ValidIsKillSafe(m);
      return first, false;
    }
    recovered := true;
    if window.deadline.None? {
      var now := m.Now();
      if now.Some? {
        window.deadline := Some(Min(overall, now.value + timeout));
      } else {
        window.deadline := Some(overall);
      }
    }
    ghost var middle := m.log;
    var second := WaitLauncher(m, window, exitDeadline, overall, timeout, true);
    ValidIsKillSafe(m);
    Concatenated(start, middle, m.log);
    if second.None? {
      if first.Some? {
        StaysTruthful(first.value, middle[|start|..], m.log[|middle|..]);
      }
      return first, true;
    }
    if first.None? {
      TruthfulLater(second.value, middle[|start|..], m.log[|middle|..]);
      return second, true;
    }
    var signalSent := first.value.signalSent || second.value.signalSent;
    var killErrno := if signalSent then None
                     else if second.value.killErrno.Some? then second.value.killErrno
                     else first.value.killErrno;
    r := Some(Observation(second.value.returncode, second.value.reaped,
                          first.value.attempted || second.value.attempted, signalSent, killErrno,
                          second.value.waitErrno, second.value.deadline,
                          first.value.exitDeadlineExceeded || second.value.exitDeadlineExceeded));
    MergedIsRight(first.value, second.value, r.value, middle[|start|..], m.log[|middle|..]);
  }

  /** The observation of a launcher that exited by itself and in time. */
  function Exits(code: int, deadline: int): Observation {
    Observation(Some(code), true, false, false, None, None, deadline, false)
  }

  lemma OrderlyExit(o: Observation, events: seq<Event>, low: int, high: int, exitDeadline: int, overall: int)
    requires Truthful(o, events) && Complete(o, events) && OrderlyEvents(events) && !AnyKill(events)
    requires Timed(o, events, None, low, high, exitDeadline, overall) && high < exitDeadline <= overall
    ensures o == Exits(0, o.deadline)
  {
  }

  lemma ValidIsKillSafe(m: Machine)
    requires m.Valid()
    ensures KillSafe(m.log)
  {
  }

  lemma Concatenated(start: seq<Event>, middle: seq<Event>, log: seq<Event>)
    requires start <= middle <= log
    ensures log[|start|..] == middle[|start|..] + log[|middle|..]
  {
  }

  lemma AnyKillOfBoth(a: seq<Event>, b: seq<Event>)
    ensures AnyKill(a + b) <==> AnyKill(a) || AnyKill(b)
  {
    if AnyKill(a) {
      var i :| 0 <= i < |a| && a[i].Killed?;
      assert (a + b)[i].Killed?;
    }
    if AnyKill(b) {
      var i :| 0 <= i < |b| && b[i].Killed?;
      assert (a + b)[|a| + i].Killed?;
    }
  }

  lemma StaysTruthful(o: Observation, a: seq<Event>, b: seq<Event>)
    requires Truthful(o, a) && !o.reaped
    ensures Truthful(o, a + b)
  {
    AnyKillOfBoth(a, b);
  }

  lemma TruthfulLater(o: Observation, a: seq<Event>, b: seq<Event>)
    requires Truthful(o, b)
    ensures Truthful(o, a + b)
  {
    AnyKillOfBoth(a, b);
  }

  lemma MergedIsRight(first: Observation, second: Observation, o: Observation, a: seq<Event>, b: seq<Event>)
    requires Truthful(first, a) && Complete(first, a) && Truthful(second, b) && Complete(second, b)
    requires o == second.(attempted := first.attempted || second.attempted,
                          signalSent := first.signalSent || second.signalSent, killErrno := o.killErrno,
                          exitDeadlineExceeded := o.exitDeadlineExceeded)
    requires o.killErrno.Some? ==> !o.signalSent && (o.killErrno == first.killErrno || o.killErrno == second.killErrno)
    ensures Truthful(o, a + b) && Complete(o, a + b)
  {
    AnyKillOfBoth(a, b);
    assert (a + b)[|a + b| - 1] == b[|b| - 1];
  }

  // ---------------------------------------------------------------------------------------
  // The wildcard reaper

  datatype ReapResult = ReapResult(reaped: nat, noChildren: bool, errno: Option<ErrorNumber>)

  function Children(events: seq<Event>): nat {
    if events == [] then 0
    else Children(events[..|events| - 1]) + (if events[|events| - 1] == ReapedAny(AChild) then 1 else 0)
  }

  lemma NoChildrenYet()
    ensures Children([]) == 0
  {
  }

  lemma OneMoreEvent(events: seq<Event>, event: Event)
    ensures Children(events + [event]) == Children(events) + (if event == ReapedAny(AChild) then 1 else 0)
  {
  }

  predicate ReapEvents(events: seq<Event>) {
    forall e :: e in events ==> e.ReapedAny?
  }

  /** The reaper was interrupted by a call that raised. */
  predicate Aborted(events: seq<Event>) {
    events != [] && events[|events| - 1] == ReapedAny(ReapRaises)
  }

  /** What the reaper reports: nothing when it raised, otherwise every child up to the bound. */
  function Counted(events: seq<Event>): nat {
    if Aborted(events) then 0 else Min(Children(events), MAX_ADOPTED)
  }

  lemma {:induction false} ChildrenOfBoth(a: seq<Event>, b: seq<Event>)
    ensures Children(a + b) == Children(a) + Children(b)
  {
    if b == [] {
      assert a + b == a;
    } else {
      var n := |b| - 1;
      ChildrenOfBoth(a, b[..n]);
      assert (a + b)[..|a + b| - 1] == a + b[..n];
    }
  }

  lemma {:induction false} NoChildrenInWaits(events: seq<Event>)
    requires WaitEvents(events)
    ensures Children(events) == 0
  {
    if events != [] {
      NoChildrenInWaits(events[..|events| - 1]);
      assert events[|events| - 1] in events;
    }
  }

  /** The launcher's own events do not enter the count. */
  lemma CountedAfterWaits(waits: seq<Event>, log: seq<Event>)
    requires waits <= log && WaitEvents(waits)
    ensures Counted(log) == if log == waits then 0 else Counted(log[|waits|..])
  {
    hide Children;
    assert log == waits + log[|waits|..];
    ChildrenOfBoth(waits, log[|waits|..]);
    NoChildrenInWaits(waits);
    if log == waits && log != [] {
      assert log[|log| - 1] in waits;
    }
  }

  /** The next `k` answers are children and then there are none. */
  predicate Prompt(reaps: seq<ReapAnswer>, k: nat) {
    && k <= MAX_ADOPTED && k < |reaps| && reaps[k] == NoChildren
    && forall i :: 0 <= i < k ==> reaps[i] == AChild
  }

  /** Every child it took is counted, up to the bound; it says none remain exactly when the
      kernel did; it gives up only on an error, past the deadline or past the bound. `None`
      means a call raised. Children that are all there at once are all taken, clock unread. */
  method ReapAdopted(m: Machine, deadline: int) returns (r: Option<ReapResult>)
    requires m.Valid()
    modifies m`clocks, m`now, m`raised, m`reaps, m`log
    ensures m.Valid() && m.now >= old(m.now)
    ensures old(m.log) <= m.log && m.log != old(m.log) && ReapEvents(m.log[|old(m.log)|..])
    ensures m.raised == if r.None? then old(m.raised) + 1 else old(m.raised)
    ensures r.None? <==> Aborted(m.log)
    ensures r.Some? ==> r.value.reaped == Counted(m.log[|old(m.log)|..])
    ensures r.Some? && r.value.noChildren <==> m.log[|m.log| - 1] == ReapedAny(NoChildren)
    ensures r.Some? ==>
              r.value.errno == match m.log[|m.log| - 1].reap
                               case NoChildren => None
                               case ReapFails(e) => Bounded(e)
                               case AChild => Some(EOVERFLOW)
                               case _ => Some(ETIMEDOUT)
    ensures OrderlyReaps(old(m.reaps)) && |old(m.reaps)| <= MAX_ADOPTED && r.Some? && m.now < deadline ==>
              r.value.noChildren
    ensures forall k :: Prompt(old(m.reaps), k) ==>
              r == Some(ReapResult(k, true, None)) && m.clocks == old(m.clocks) && m.now == old(m.now)
  {
    hide Machine.Valid, Children, OrderlyReaps;
    ghost var start, events := m.log, [];
    NoChildrenYet();
    var reaped := 0;
    while true
      invariant m.Valid() && m.now >= old(m.now) && m.raised == old(m.raised)
      invariant m.log == start + events && ReapEvents(events)
      invariant reaped == Children(events) <= MAX_ADOPTED
      invariant reaped + |m.reaps| <= |old(m.reaps)| && (OrderlyReaps(old(m.reaps)) ==> OrderlyReaps(m.reaps))
      invariant forall k :: Prompt(old(m.reaps), k) ==>
                  reaped <= k && m.reaps == old(m.reaps)[reaped..] && m.clocks == old(m.clocks) && m.now == old(m.now)
      decreases |m.reaps|
    {
      var answer := m.ReapAny();
      ghost var before := events;
      events := events + [ReapedAny(answer)];
      OneMoreEvent(before, ReapedAny(answer));
      assert m.log == start + events && m.log[|start|..] == events;
      match answer
      case ReapRaises =>
        return None;
      case ReapInterrupted =>
      case NoChildren =>
        return Some(ReapResult(reaped, true, None));
      case ReapFails(e) =>
        return Some(ReapResult(reaped, false, Bounded(e)));
      case AChild =>
        reaped := reaped + 1;
        if reaped > MAX_ADOPTED {
          return Some(ReapResult(MAX_ADOPTED, false, Some(EOVERFLOW)));
        }
      case NoneReady =>
        var now := m.Now();
        if now.None? {
          NoteReapRaised(m);
          return None;
        }
        if now.value >= deadline {
          return Some(ReapResult(reaped, false, Some(ETIMEDOUT)));
        }
        now := m.Now();
        if now.None? {
          NoteReapRaised(m);
          return None;
        }
    }
  }
}
