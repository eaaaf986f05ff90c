/**
  Any number of orchestrator runs, retries and crashes over one claim ledger and one launch
  ledger. Transactions are atomic steps; a return value can be lost after the commit; every
  clock reading and every I/O error is chosen by the environment.
 */
module LaunchSystem {
  import opened Common
  import Intents = IntentLedger
  import Launches = LaunchLedger

  /** Where one orchestrator run stands. `receipt` is always one the run's own transaction
      returned, except in `FinishedWithoutLaunch`, which a recovered receipt leads to. */
  datatype Phase =
    | Preflighted
    | Admitting(verifiedAt: int)
    | Held(receipt: Launches.AttemptReceipt)
    | Cleared(receipt: Launches.AttemptReceipt)
    | Ambiguous
    | Unverified(receipt: Launches.AttemptReceipt)
    | Spawned(receipt: Launches.AttemptReceipt)
    | FinishedWithoutLaunch(receipt: Launches.AttemptReceipt)
    | Stopped

  datatype Run = Run(inputs: Launches.Inputs, phase: Phase)

  /** What an observer of the whole system can record. */
  datatype Entry =
    | ReturnedTo(run: nat, receipt: Launches.AttemptReceipt)
    | VerifiedFor(run: nat, receipt: Launches.AttemptReceipt)
    | RecoveredFor(run: nat, receipt: Launches.AttemptReceipt)
    | SpawnedBy(run: nat, receipt: Launches.AttemptReceipt)

  datatype State = State(claims: Intents.Db, launches: Launches.Db, runs: seq<Run>, log: seq<Entry>)

  datatype Delivery = Returned | RaisedAfterCommit | RaisedBeforeCommit

  datatype Event =
    | ClaimTransaction(call: Intents.Call, commits: bool)
    | Start(inputs: Launches.Inputs, now: int, recoveredAt: int)
    | Authenticate(run: nat, now: int, recoveredAt: int)
    | AdmissionRaises(run: nat)
    | ConsumeTransaction(run: nat, consumedAt: int, attemptId: Option<Launches.Id>, nonce: Launches.Id,
                         constructs: bool, delivery: Delivery)
    | VerifyTransaction(run: nat, readable: bool)
    | RecoverTransaction(run: nat, now: int, recoveredAt: int, readable: bool)
    | SpawnLauncher(run: nat)
    | Crash(run: nat)

  function At(s: State, run: nat, phase: Phase): State
    requires run < |s.runs|
  {
    s.(runs := s.runs[run := s.runs[run].(phase := phase)])
  }

  function Logged(s: State, entry: Entry): State {
    s.(log := s.log + [entry])
  }

  predicate In(s: State, run: nat) {
    run < |s.runs|
  }

  function CallOf(run: Run, e: Event): Launches.Call
    requires e.ConsumeTransaction? && run.phase.Admitting?
  {
    Launches.Call(run.inputs, run.phase.verifiedAt, e.consumedAt, e.attemptId, e.nonce, e.constructs)
  }

  function ConsumeStep(s: State, e: Event): State
    requires e.ConsumeTransaction? && In(s, e.run) && s.runs[e.run].phase.Admitting?
  {
    var (launches, r) := Launches.Consume(s.launches, CallOf(s.runs[e.run], e));
    match e.delivery
    case RaisedBeforeCommit => At(s, e.run, Ambiguous)
    case RaisedAfterCommit => At(s.(launches := launches), e.run, Ambiguous)
    case Returned =>
      var s' := s.(launches := launches);
      if r.Consumed? then Logged(At(s', e.run, Held(r.receipt)), ReturnedTo(e.run, r.receipt))
      else if r.why.AlreadyConsumed? then At(s', e.run, Stopped)
      else At(s', e.run, Ambiguous)
  }

  /** After a failed admission or verification: recover, compare, finalise without launching. */
  function RecoverStep(s: State, e: Event): State
    requires e.RecoverTransaction? && In(s, e.run)
    requires s.runs[e.run].phase.Ambiguous? || s.runs[e.run].phase.Unverified?
  {
    var run := s.runs[e.run];
    var r := Launches.Recover(s.claims, s.launches, run.inputs, e.now, e.recoveredAt);
    if !e.readable || r.Refused? then At(s, e.run, Stopped)
    else if run.phase.Unverified? && run.phase.receipt != r.receipt then At(s, e.run, Stopped)
    else Logged(At(s, e.run, FinishedWithoutLaunch(r.receipt)), RecoveredFor(e.run, r.receipt))
  }

  /** One step; an event whose guard does not hold leaves the state alone. */
  function Step(s: State, e: Event): State {
    match e
    case ClaimTransaction(call, commits) =>
      if commits then s.(claims := Intents.Claim(s.claims, call).0) else s
    case Start(inputs, now, recoveredAt) =>
      if Launches.Authenticated(s.claims, s.launches, inputs, now, recoveredAt, true)
      then s.(runs := s.runs + [Run(inputs, Preflighted)])
      else s
    case Authenticate(run, now, recoveredAt) =>
      if In(s, run) && s.runs[run].phase.Preflighted?
         && Launches.Authenticated(s.claims, s.launches, s.runs[run].inputs, now, recoveredAt, true)
      then At(s, run, Admitting(now))
      else s
    case AdmissionRaises(run) =>
      if In(s, run) && (s.runs[run].phase.Preflighted? || s.runs[run].phase.Admitting?)
      then At(s, run, Ambiguous)
      else s
    case ConsumeTransaction(run, _, _, _, _, _) =>
      if In(s, run) && s.runs[run].phase.Admitting? then ConsumeStep(s, e) else s
    case VerifyTransaction(run, readable) =>
      if In(s, run) && s.runs[run].phase.Held? then
        var receipt := s.runs[run].phase.receipt;
        if readable && Launches.Verify(s.launches, receipt)
        then Logged(At(s, run, Cleared(receipt)), VerifiedFor(run, receipt))
        else At(s, run, Unverified(receipt))
      else s
    case RecoverTransaction(run, _, _, _) =>
      if In(s, run) && (s.runs[run].phase.Ambiguous? || s.runs[run].phase.Unverified?)
      then RecoverStep(s, e)
      else s
    case SpawnLauncher(run) =>
      if In(s, run) && s.runs[run].phase.Cleared? then
        var receipt := s.runs[run].phase.receipt;
        Logged(At(s, run, Spawned(receipt)), SpawnedBy(run, receipt))
      else s
    case Crash(run) => if In(s, run) then At(s, run, Stopped) else s
  }

  function Execute(s: State, events: seq<Event>): State
    decreases |events|
  {
    if events == [] then s else Execute(Step(s, events[0]), events[1..])
  }

  predicate Initial(s: State) {
    && Intents.Empty(s.claims)
    && s.launches.reservations == [] && s.launches.attempts == []
    && s.runs == [] && s.log == []
  }

  // ---------------------------------------------------------------------------------------
  // The inductive invariant

  /** `run` was handed `receipt` and then saw it verified, both before position `end`. */
  ghost predicate ReturnedThenVerified(log: seq<Entry>, run: nat, receipt: Launches.AttemptReceipt, end: nat) {
    exists a, b :: 0 <= a < b < end <= |log|
                   && log[a] == ReturnedTo(run, receipt) && log[b] == VerifiedFor(run, receipt)
  }

  ghost predicate RunOk(s: State, k: nat)
    requires k < |s.runs|
  {
    var run := s.runs[k];
    match run.phase
    case Admitting(_) =>
      && Launches.Vouched(run.inputs) && run.inputs.claim in s.claims.claims
      && run.inputs.claim.payload.notBefore <= run.inputs.claim.claimedAt
    case Held(receipt) => ReturnedTo(k, receipt) in s.log
    case Unverified(receipt) => ReturnedTo(k, receipt) in s.log
    case Cleared(receipt) => ReturnedThenVerified(s.log, k, receipt, |s.log|)
    case _ => true
  }

  predicate Finished(phase: Phase) {
    phase.Spawned? || phase.FinishedWithoutLaunch? || phase.Stopped?
  }

  ghost predicate EntryOk(s: State, i: nat)
    requires i < |s.log|
  {
    match s.log[i]
    case ReturnedTo(run, receipt) => receipt in s.launches.attempts
    case VerifiedFor(run, receipt) => true
    case RecoveredFor(run, receipt) => In(s, run) && Finished(s.runs[run].phase)
    case SpawnedBy(run, receipt) =>
      In(s, run) && Finished(s.runs[run].phase) && ReturnedThenVerified(s.log, run, receipt, i)
  }

  /** Entries that may not both appear. */
  predicate Exclusive(x: Entry, y: Entry) {
    && (x.ReturnedTo? && y.ReturnedTo? ==> x.receipt != y.receipt)
    && (x.SpawnedBy? && (y.SpawnedBy? || y.RecoveredFor?) ==> x.run != y.run)
    && (x.RecoveredFor? && y.SpawnedBy? ==> x.run != y.run)
  }

  ghost predicate Ledgers(s: State) {
    Intents.WellFormed(s.claims) && Launches.WellFormed(s.launches) && Launches.Anchored(s.claims, s.launches)
  }

  ghost predicate Invariant(s: State) {
    && Ledgers(s)
    && (forall k :: 0 <= k < |s.runs| ==> RunOk(s, k))
    && (forall i :: 0 <= i < |s.log| ==> EntryOk(s, i))
    && (forall i, j :: 0 <= i < j < |s.log| ==> Exclusive(s.log[i], s.log[j]))
  }

  // ---------------------------------------------------------------------------------------
  // Preservation, one ingredient at a time

  /** Growing ledgers, an unchanged log, and a move of one run to a phase that is itself all
      right keep the invariant. */
  lemma MoveKeeps(s: State, s': State, run: nat)
    requires Invariant(s) && In(s, run) && Ledgers(s')
    requires |s'.runs| == |s.runs| && s'.runs == s.runs[run := s'.runs[run]] && s'.log == s.log
    requires Intents.Extends(s.claims, s'.claims) && Launches.Extends(s.launches, s'.launches)
    requires RunOk(s', run)
    requires Finished(s.runs[run].phase) ==> Finished(s'.runs[run].phase)
    ensures Invariant(s')
  {
    forall k | 0 <= k < |s'.runs| ensures RunOk(s', k) {
      if k != run {
        assert s'.runs[k] == s.runs[k] && RunOk(s, k);
      }
    }
    forall i | 0 <= i < |s'.log| ensures EntryOk(s', i) {
      assert EntryOk(s, i);
    }
  }

  /** Appending an entry that is all right and excluded by nothing keeps the invariant. */
  lemma LogKeeps(s: State, entry: Entry)
    requires Invariant(s)
    requires EntryOk(Logged(s, entry), |s.log|)
    requires forall i :: 0 <= i < |s.log| ==> Exclusive(s.log[i], entry)
    ensures Invariant(Logged(s, entry))
  {
    var s' := Logged(s, entry);
    forall k | 0 <= k < |s'.runs| ensures RunOk(s', k) {
      assert RunOk(s, k);
      if s.runs[k].phase.Cleared? {
        LogGrows(s, entry, k, s.runs[k].phase.receipt, |s.log|);
      }
    }
    forall i | 0 <= i < |s'.log| ensures EntryOk(s', i) {
      if i < |s.log| {
        assert EntryOk(s, i);
        if s.log[i].SpawnedBy? {
          LogGrows(s, entry, s.log[i].run, s.log[i].receipt, i);
        }
      }
    }
  }

  lemma LogGrows(s: State, entry: Entry, run: nat, receipt: Launches.AttemptReceipt, end: nat)
    requires ReturnedThenVerified(s.log, run, receipt, end)
    ensures ReturnedThenVerified(Logged(s, entry).log, run, receipt, end)
    ensures end == |s.log| ==> ReturnedThenVerified(Logged(s, entry).log, run, receipt, end + 1)
  {
    var a, b :| 0 <= a < b < end <= |s.log| && s.log[a] == ReturnedTo(run, receipt)
                && s.log[b] == VerifiedFor(run, receipt);
    var log := Logged(s, entry).log;
    assert log[a] == ReturnedTo(run, receipt) && log[b] == VerifiedFor(run, receipt);
  }

  lemma ClaimStepKeeps(s: State, call: Intents.Call)
    requires Invariant(s)
    ensures Invariant(s.(claims := Intents.Claim(s.claims, call).0))
  {
    hide Intents.Claim, Intents.WellFormed;
    Intents.ClaimKeeps(s.claims, call);
    var s' := s.(claims := Intents.Claim(s.claims, call).0);
    forall k | 0 <= k < |s'.runs| ensures RunOk(s', k) {
      assert RunOk(s, k);
    }
    forall i | 0 <= i < |s'.log| ensures EntryOk(s', i) {
      assert EntryOk(s, i);
    }
  }

  lemma StartKeeps(s: State, inputs: Launches.Inputs)
    requires Invariant(s)
    ensures Invariant(s.(runs := s.runs + [Run(inputs, Preflighted)]))
  {
    var s' := s.(runs := s.runs + [Run(inputs, Preflighted)]);
    forall k | 0 <= k < |s'.runs| ensures RunOk(s', k) {
      if k < |s.runs| {
        assert RunOk(s, k);
      }
    }
    forall i | 0 <= i < |s'.log| ensures EntryOk(s', i) {
      assert EntryOk(s, i);
    }
  }

  /** Moving a run that still has somewhere to go, with nothing else changing. */
  lemma PhaseKeeps(s: State, run: nat, phase: Phase)
    requires Invariant(s) && In(s, run)
    requires Finished(s.runs[run].phase) ==> Finished(phase)
    requires RunOk(At(s, run, phase), run)
    ensures Invariant(At(s, run, phase))
  {
    hide Intents.WellFormed, Launches.WellFormed, Launches.Anchored;
    MoveKeeps(s, At(s, run, phase), run);
  }

  lemma AuthenticateKeeps(s: State, run: nat, now: int, recoveredAt: int)
    requires Invariant(s) && In(s, run) && s.runs[run].phase.Preflighted?
    requires Launches.Authenticated(s.claims, s.launches, s.runs[run].inputs, now, recoveredAt, true)
    ensures Invariant(At(s, run, Admitting(now)))
  {
    Launches.AuthenticationVouches(s.claims, s.launches, s.runs[run].inputs, now, recoveredAt, true);
    PhaseKeeps(s, run, Admitting(now));
  }

  lemma ConsumeStepKeeps(s: State, e: Event)
    requires Invariant(s)
    requires e.ConsumeTransaction? && In(s, e.run) && s.runs[e.run].phase.Admitting?
    ensures Invariant(ConsumeStep(s, e))
  {
    hide Launches.Consume, Launches.WellFormed, Intents.WellFormed, Launches.Anchored;
    var call := CallOf(s.runs[e.run], e);
    var (launches, r) := Launches.Consume(s.launches, call);
    assert RunOk(s, e.run);
    Launches.ConsumeKeeps(s.launches, call);
    Launches.ConsumeKeepsAnchored(s.claims, s.launches, call);
    if e.delivery == RaisedBeforeCommit {
      PhaseKeeps(s, e.run, Ambiguous);
    } else if e.delivery == Returned && r.Consumed? {
      Launches.ConsumeReserves(s.launches, call);
      HandOver(s, launches, e.run, r.receipt);
    } else {
      MoveKeeps(s, ConsumeStep(s, e), e.run);
    }
  }

  /** The transaction's receipt is new, so nobody was handed it before. */
  lemma HandOver(s: State, launches: Launches.Db, run: nat, receipt: Launches.AttemptReceipt)
    requires Invariant(s) && In(s, run) && s.runs[run].phase.Admitting?
    requires Launches.WellFormed(launches) && Launches.Anchored(s.claims, launches)
    requires Launches.Extends(s.launches, launches)
    requires receipt in launches.attempts && receipt !in s.launches.attempts
    ensures Invariant(Logged(At(s.(launches := launches), run, Held(receipt)), ReturnedTo(run, receipt)))
  {
    hide Launches.WellFormed, Intents.WellFormed, Launches.Anchored;
    var waiting := At(s.(launches := launches), run, Ambiguous);
    MoveKeeps(s, waiting, run);
    forall i | 0 <= i < |s.log| ensures Exclusive(s.log[i], ReturnedTo(run, receipt)) {
      assert EntryOk(s, i);
    }
    LogKeeps(waiting, ReturnedTo(run, receipt));
    var logged := Logged(waiting, ReturnedTo(run, receipt));
    assert logged.log[|s.log|] == ReturnedTo(run, receipt);
    PhaseKeeps(logged, run, Held(receipt));
    assert At(logged, run, Held(receipt))
        == Logged(At(s.(launches := launches), run, Held(receipt)), ReturnedTo(run, receipt));
  }

  lemma VerifyStepKeeps(s: State, run: nat, receipt: Launches.AttemptReceipt)
    requires Invariant(s) && In(s, run) && s.runs[run].phase == Held(receipt)
    ensures Invariant(Logged(At(s, run, Cleared(receipt)), VerifiedFor(run, receipt)))
  {
    assert RunOk(s, run);
    var a :| 0 <= a < |s.log| && s.log[a] == ReturnedTo(run, receipt);
    LogKeeps(s, VerifiedFor(run, receipt));
    var logged := Logged(s, VerifiedFor(run, receipt));
    assert logged.log[a] == ReturnedTo(run, receipt) && logged.log[|s.log|] == VerifiedFor(run, receipt);
    PhaseKeeps(logged, run, Cleared(receipt));
  }

  lemma UnfinishedHasNotSpawned(s: State, run: nat)
    requires Invariant(s) && In(s, run) && !Finished(s.runs[run].phase)
    ensures forall i :: 0 <= i < |s.log| && (s.log[i].SpawnedBy? || s.log[i].RecoveredFor?) ==> s.log[i].run != run
  {
    forall i | 0 <= i < |s.log| && (s.log[i].SpawnedBy? || s.log[i].RecoveredFor?) ensures s.log[i].run != run {
      assert EntryOk(s, i);
    }
  }

  lemma RecoverStepKeeps(s: State, e: Event)
    requires Invariant(s) && e.RecoverTransaction? && In(s, e.run)
    requires s.runs[e.run].phase.Ambiguous? || s.runs[e.run].phase.Unverified?
    ensures Invariant(RecoverStep(s, e))
  {
    hide Launches.Recover, Ledgers;
    var r := Launches.Recover(s.claims, s.launches, s.runs[e.run].inputs, e.now, e.recoveredAt);
    UnfinishedHasNotSpawned(s, e.run);
    if RecoverStep(s, e) == At(s, e.run, Stopped) {
      PhaseKeeps(s, e.run, Stopped);
    } else {
      PhaseKeeps(s, e.run, FinishedWithoutLaunch(r.receipt));
      LogKeeps(At(s, e.run, FinishedWithoutLaunch(r.receipt)), RecoveredFor(e.run, r.receipt));
    }
  }

  lemma SpawnStepKeeps(s: State, run: nat, receipt: Launches.AttemptReceipt)
    requires Invariant(s) && In(s, run) && s.runs[run].phase == Cleared(receipt)
    ensures Invariant(Logged(At(s, run, Spawned(receipt)), SpawnedBy(run, receipt)))
  {
    hide Ledgers;
    assert RunOk(s, run);
    UnfinishedHasNotSpawned(s, run);
    LogGrows(s, SpawnedBy(run, receipt), run, receipt, |s.log|);
    PhaseKeeps(s, run, Spawned(receipt));
    LogKeeps(At(s, run, Spawned(receipt)), SpawnedBy(run, receipt));
  }

  lemma StepKeeps(s: State, e: Event)
    requires Invariant(s)
    ensures Invariant(Step(s, e))
  {
    hide Invariant, Launches.Authenticated, Launches.Verify, ConsumeStep, RecoverStep, Intents.Claim;
    match e
    case ClaimTransaction(call, commits) => ClaimStepKeeps(s, call);
    case Start(inputs, now, recoveredAt) => StartKeeps(s, inputs);
    case Authenticate(run, now, recoveredAt) =>
      if Step(s, e) != s {
        AuthenticateKeeps(s, run, now, recoveredAt);
      }
    case AdmissionRaises(run) =>
      if Step(s, e) != s {
        PhaseKeeps(s, run, Ambiguous);
      }
    case ConsumeTransaction(run, _, _, _, _, _) =>
      if In(s, run) && s.runs[run].phase.Admitting? {
        ConsumeStepKeeps(s, e);
      }
    case VerifyTransaction(run, readable) =>
      if In(s, run) && s.runs[run].phase.Held? {
        VerifyStepKeeps(s, run, s.runs[run].phase.receipt);
        VerificationFails(s, run);
      }
    case RecoverTransaction(run, _, _, _) =>
      if In(s, run) && (s.runs[run].phase.Ambiguous? || s.runs[run].phase.Unverified?) {
        RecoverStepKeeps(s, e);
      }
    case SpawnLauncher(run) =>
      if In(s, run) && s.runs[run].phase.Cleared? {
        SpawnStepKeeps(s, run, s.runs[run].phase.receipt);
      }
    case Crash(run) =>
      if In(s, run) {
        PhaseKeeps(s, run, Stopped);
      }
  }

  lemma VerificationFails(s: State, run: nat)
    requires Invariant(s) && In(s, run) && s.runs[run].phase.Held?
    ensures Invariant(At(s, run, Unverified(s.runs[run].phase.receipt)))
  {
    assert RunOk(s, run);
    PhaseKeeps(s, run, Unverified(s.runs[run].phase.receipt));
  }

  lemma {:induction false} ExecuteKeeps(s: State, events: seq<Event>)
    requires Invariant(s)
    ensures Invariant(Execute(s, events))
    decreases |events|
  {
    hide Invariant, Step;
    if events != [] {
      StepKeeps(s, events[0]);
      ExecuteKeeps(Step(s, events[0]), events[1..]);
    }
  }

  lemma InitialIsInvariant(s: State)
    requires Initial(s)
    ensures Invariant(s)
  {
  }

  // ---------------------------------------------------------------------------------------
  // The promises

  /** At most once: over every interleaving, two spawns never share an intent, an intent id, an
      intent nonce or a claim. */
  lemma AtMostOneSpawnPerIntent(s: State, events: seq<Event>, i: nat, j: nat)
    requires Initial(s)
    requires i < j < |Execute(s, events).log|
    requires Execute(s, events).log[i].SpawnedBy? && Execute(s, events).log[j].SpawnedBy?
    ensures var log := Execute(s, events).log;
            !Launches.Overlap(log[i].receipt.claim, log[j].receipt.claim)
  {
    hide Execute, Intents.WellFormed;
    InitialIsInvariant(s);
    ExecuteKeeps(s, events);
    var last := Execute(s, events);
    var x, y := last.log[i], last.log[j];
    assert EntryOk(last, i) && EntryOk(last, j) && Exclusive(x, y);
    var a, b :| 0 <= a < b < i <= |last.log| && last.log[a] == ReturnedTo(x.run, x.receipt)
                && last.log[b] == VerifiedFor(x.run, x.receipt);
    var c, d :| 0 <= c < d < j <= |last.log| && last.log[c] == ReturnedTo(y.run, y.receipt)
                && last.log[d] == VerifiedFor(y.run, y.receipt);
    assert EntryOk(last, a) && EntryOk(last, c) && a != c;
    if a < c {
      assert Exclusive(last.log[a], last.log[c]);
    } else {
      assert Exclusive(last.log[c], last.log[a]);
    }
    DifferentAttempts(last.launches, x.receipt, y.receipt);
  }

  lemma DifferentAttempts(db: Launches.Db, x: Launches.AttemptReceipt, y: Launches.AttemptReceipt)
    requires Launches.WellFormed(db) && x in db.attempts && y in db.attempts && x != y
    ensures !Launches.Overlap(x.claim, y.claim)
  {
  }

  /** Only the run whose own transaction returned the receipt normally, and which then saw it
      verified, spawns for it; the receipt is committed, its claim is committed, and the times
      of both are ordered inside the signed window. */
  lemma SpawnOnlyAfterReturnAndVerify(s: State, events: seq<Event>, i: nat)
    requires Initial(s)
    requires i < |Execute(s, events).log| && Execute(s, events).log[i].SpawnedBy?
    ensures var last := Execute(s, events);
            var (run, receipt) := (last.log[i].run, last.log[i].receipt);
            && ReturnedThenVerified(last.log, run, receipt, i)
            && receipt in last.launches.attempts && receipt.claim in last.claims.claims
            && receipt.claim.payload.notBefore <= receipt.claim.claimedAt <= receipt.consumedAt
               < receipt.claim.payload.expiresAt
  {
    hide Execute, Intents.WellFormed;
    InitialIsInvariant(s);
    ExecuteKeeps(s, events);
    var last := Execute(s, events);
    var x := last.log[i];
    assert EntryOk(last, i);
    var a, b :| 0 <= a < b < i <= |last.log| && last.log[a] == ReturnedTo(x.run, x.receipt)
                && last.log[b] == VerifiedFor(x.run, x.receipt);
    assert EntryOk(last, a);
    assert Launches.References(last.launches, x.receipt);
  }

  /** A run that finalised a recovered receipt never spawned and never will. */
  lemma RecoveredRunNeverSpawns(s: State, events: seq<Event>, i: nat, j: nat)
    requires Initial(s)
    requires i < |Execute(s, events).log| && j < |Execute(s, events).log|
    requires Execute(s, events).log[i].RecoveredFor? && Execute(s, events).log[j].SpawnedBy?
    ensures Execute(s, events).log[i].run != Execute(s, events).log[j].run
  {
    hide Execute, Ledgers;
    InitialIsInvariant(s);
    ExecuteKeeps(s, events);
    var log := Execute(s, events).log;
    if i < j {
      assert Exclusive(log[i], log[j]);
    } else {
      assert Exclusive(log[j], log[i]);
    }
  }

  /** In every reachable state each launch reservation, tombstones included, names a committed
      claim with its times in order. */
  lemma ReservationsAreAnchored(s: State, events: seq<Event>)
    requires Initial(s)
    ensures Launches.Anchored(Execute(s, events).claims, Execute(s, events).launches)
  {
    hide Execute;
    InitialIsInvariant(s);
    ExecuteKeeps(s, events);
  }

  /** The promises are not empty: from any reachable state, a fresh run over a committed claim
      that nothing has consumed yet, with clocks in order and no error, does spawn. */
  lemma UndisturbedRunSpawns(
    s: State, inputs: Launches.Inputs, now: int, recoveredAt: int, consumedAt: int, attemptId: Launches.Id,
    nonce: Launches.Id)
    requires Invariant(s)
    requires Launches.Authenticated(s.claims, s.launches, inputs, now, recoveredAt, true)
    requires now <= consumedAt && s.launches.clock <= consumedAt
    requires Launches.HeldInWindow(inputs.claim, consumedAt)
    requires !Launches.IdentityTaken(s.launches.reservations, inputs.claim)
    requires !Launches.AttemptIdTaken(s.launches.attempts, attemptId)
    requires forall a :: a in s.launches.attempts ==> a.attemptNonce != nonce
    ensures var run := |s.runs|;
            var last := Execute(s, [Start(inputs, now, recoveredAt), Authenticate(run, now, recoveredAt),
                                    ConsumeTransaction(run, consumedAt, Some(attemptId), nonce, true, Returned),
                                    VerifyTransaction(run, true), SpawnLauncher(run)]);
            exists receipt: Launches.AttemptReceipt :: && receipt.claim == inputs.claim
                              && last.log == s.log + [ReturnedTo(run, receipt), VerifiedFor(run, receipt),
                                                      SpawnedBy(run, receipt)]
  {
    hide Launches.Authenticated, Launches.Consume, Launches.Verify, Invariant;
    var run := |s.runs|;
    var e3 := ConsumeTransaction(run, consumedAt, Some(attemptId), nonce, true, Returned);
    var s1 := Step(s, Start(inputs, now, recoveredAt));
    var s2 := Step(s1, Authenticate(run, now, recoveredAt));
    assert s1.runs[run] == Run(inputs, Preflighted);
    assert s2.runs[run] == Run(inputs, Admitting(now));
    StepKeeps(s, Start(inputs, now, recoveredAt));
    StepKeeps(s1, Authenticate(run, now, recoveredAt));
    var receipt := FreshAttempt(s2, run, e3);
    var s3 := Step(s2, e3);
    var s4 := Step(s3, VerifyTransaction(run, true));
    var s5 := Step(s4, SpawnLauncher(run));
    assert s5.log == s.log + [ReturnedTo(run, receipt), VerifiedFor(run, receipt), SpawnedBy(run, receipt)];
    FiveSteps(s, Start(inputs, now, recoveredAt), Authenticate(run, now, recoveredAt), e3,
              VerifyTransaction(run, true), SpawnLauncher(run));
  }

  lemma FreshAttempt(s: State, run: nat, e: Event) returns (receipt: Launches.AttemptReceipt)
    requires Invariant(s) && In(s, run) && s.runs[run].phase.Admitting?
    requires e.ConsumeTransaction? && e.run == run && e.constructs && e.attemptId.Some? && e.delivery == Returned
    requires s.runs[run].phase.verifiedAt <= e.consumedAt && s.launches.clock <= e.consumedAt
    requires Launches.HeldInWindow(s.runs[run].inputs.claim, e.consumedAt)
    requires !Launches.IdentityTaken(s.launches.reservations, s.runs[run].inputs.claim)
    requires !Launches.AttemptIdTaken(s.launches.attempts, e.attemptId.value)
    requires forall a :: a in s.launches.attempts ==> a.attemptNonce != e.nonce
    ensures receipt.claim == s.runs[run].inputs.claim
    ensures var s' := Step(s, e);
            && s'.log == s.log + [ReturnedTo(run, receipt)]
            && |s'.runs| == |s.runs| && s'.runs[run].phase == Held(receipt)
            && Launches.Verify(s'.launches, receipt)
  {
    hide Launches.Consume;
    var call := CallOf(s.runs[run], e);
    assert RunOk(s, run);
    Launches.ConsumesExactlyWhen(s.launches, call);
    Launches.ConsumeReserves(s.launches, call);
    Launches.ConsumeKeeps(s.launches, call);
    receipt := Launches.Consume(s.launches, call).1.receipt;
    var next := Launches.Consume(s.launches, call).0;
    assert Launches.GoodAttempt(next, receipt);
    Launches.AttemptIsUnique(next, receipt);
  }

  lemma FiveSteps(s: State, a: Event, b: Event, c: Event, d: Event, e: Event)
    ensures Execute(s, [a, b, c, d, e]) == Step(Step(Step(Step(Step(s, a), b), c), d), e)
  {
    hide Step;
    var s1 := Step(s, a);
    var s2 := Step(s1, b);
    var s3 := Step(s2, c);
    var s4 := Step(s3, d);
    assert [a, b, c, d, e][1..] == [b, c, d, e] && [b, c, d, e][1..] == [c, d, e] && [c, d, e][1..] == [d, e];
    assert [d, e][1..] == [e] && [e][1..] == [];
    assert Execute(s4, [e]) == Execute(Step(s4, e), []);
    assert Execute(s3, [d, e]) == Execute(s4, [e]);
    assert Execute(s2, [c, d, e]) == Execute(s3, [d, e]);
    assert Execute(s1, [b, c, d, e]) == Execute(s2, [c, d, e]);
  }
}
