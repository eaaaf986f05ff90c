/**
  Both sides of the control socket together: what the launcher process sends, arriving whole at
  the orchestrator, is a report of success exactly when the launcher ran to its end.
 */
module EndToEnd {
  import opened Common
  import Native = NativeProtocol
  import opened LauncherWaits
  import opened Launcher
  import opened Lifecycle

  /** Whatever the kernel answered the launcher: if its frames arrive whole, the orchestrator can
      read success from them if and only if the launcher exited with code 0. */
  lemma ReportsExactlyItsExit(k: Kernel, launch: Launch)
    requires Sane(k) && launch.setup == SpawnedAs(k.launcherPid)
    requires Received(launch.socket, Native.SentAll(Run(k).frames))
    ensures Reports(launch) <==> Run(k).exit == 0
  {
    hide Native.Parse, Native.SuccessPrefix, StartupSite, CloneSite, ReadySite, StopSite, KillSite, Received;
    var records := Native.SentAll(Run(k).frames);
    if Run(k).exit == 0 {
      FinishedRunSucceeds(k);
      assert Succeeded(k.launcherPid, records);
    } else {
      UnfinishedRunFails(k);
      if Reports(launch) {
        var others :| Received(launch.socket, others) && Succeeded(k.launcherPid, others);
        ReceivedOnce(launch.socket, others, records);
      }
    }
  }

  /** An exit code of 0 means that no step failed and the final frame was sent. */
  lemma ExitZero(k: Kernel)
    ensures Run(k).exit == 0 <==>
              k.clockStarts && k.early.None? && FirstFailure(k).None? && k.finishing.finalSend.Pass?
  {
  }

  lemma FinishedRunSucceeds(k: Kernel)
    requires Sane(k) && Run(k).exit == 0
    ensures Succeeded(k.launcherPid, Native.SentAll(Run(k).frames))
  {
    hide Native.Parse, Native.SuccessPrefix, StartupSite, CloneSite, ReadySite, StopSite, KillSite;
    ExitZero(k);
    ParserAcceptsRun(k);
    var frames := Run(k).frames;
    PrefixIsValid(k, Native.SUCCESS_LENGTH);
    Native.ParseIsWalk(frames, 0, k.launcherPid);
    Native.WalkCharacterised(frames, 0, None, 0, k.launcherPid);
    assert frames[|frames| - 1] in frames;
  }

  /** What an unfinished run sent is not a success transcript. */
  lemma UnfinishedRunFails(k: Kernel)
    requires Sane(k) && Run(k).exit != 0
    ensures !Succeeded(k.launcherPid, Native.SentAll(Run(k).frames))
  {
    hide Native.Parse, Native.SuccessPrefix, StartupSite, CloneSite, ReadySite, StopSite, KillSite, FinishSite;
    hide TerminalOf;
    ExitZero(k);
    if !k.clockStarts || k.early.Some? {
      assert Run(k).frames == Prefix(k, 0);
      PrefixAlone(k, 0, 0);
    } else if FirstFailure(k).None? {
      PrefixAlone(k, 4, 0);
    } else {
      SitesAreBounded(k);
      var site := FirstFailure(k).value;
      if site.channel && k.failing.errorSend.Pass? {
        TerminalMaskIsSmall(k.failing, site);
        ErrorEndsFailed(k, site.prefix, TerminalOf(k.failing, site));
      } else {
        PrefixAlone(k, site.prefix, 0);
      }
    }
  }

  lemma ErrorEndsFailed(k: Kernel, n: nat, t: Terminal)
    requires Sane(k) && n < Native.SUCCESS_LENGTH && t.mask <= 2 * Native.ACHIEVED_MASK
    ensures !Succeeded(k.launcherPid, Native.SentAll(Prefix(k, n) + [ErrorFrame(n, t)]))
  {
    hide Native.Parse, Native.SuccessPrefix;
    var frames := Prefix(k, n) + [ErrorFrame(n, t)];
    PrefixIsValid(k, n);
    assert frames[|frames| - 1] == ErrorFrame(n, t);
    Native.ParseIsWalk(frames, 0, k.launcherPid);
    Native.WalkCharacterised(frames, 0, None, 0, k.launcherPid);
  }

  /** What an exit with code 0 vouches for: the child announced itself and closed its pipe, the cgroup
      was seen populated, the stop and then the kill were the child's first reports, and the cgroup was
      seen empty. */
  lemma FinishedRunWasObserved(k: Kernel)
    requires Run(k).exit == 0
    ensures exists i: nat, j: nat :: Handshake(k.readying.ready, i, j)
    ensures exists i: nat :: PopulatedAt(k.readying.populated, i)
    ensures exists i: nat :: StopsAt(k.stopping.stopWait, i)
    ensures BothSeen(k.killing.killedWait, false, None, true)
  {
    hide ReadyOf, PopulatedOf, StopOf, KilledOf, StartupSite, CloneSite, FinishSite, BothSeen;
    ExitZero(k);
    ReadyExactly(k.readying.ready);
    PopulatedExactly(k.readying.populated);
    StopExactly(k.stopping.stopWait);
    KilledSawBoth(k.killing.killedWait, true, false, None);
  }
}
