/**
  The independent durable ledger of launch attempts. An attempt is consumed only for a claim
  receipt that the claim ledger still vouches for.
 */
module LaunchLedger {
  import opened Common
  import Intents = IntentLedger

  type Id = Intents.Id

  datatype Reservation = Reservation(
    claim: Intents.ClaimReceipt, intent: Intents.Intent, trust: Intents.TrustStore,
    worker: Id, claimLedger: Id, ledger: Id, reservedAt: nat)

  datatype AttemptReceipt = AttemptReceipt(
    claim: Intents.ClaimReceipt, worker: Id, claimLedger: Id, ledger: Id,
    attemptId: Id, attemptNonce: Id, consumedAt: nat)

  datatype Db = Db(
    worker: Id, claimLedger: Id, ledger: Id, clock: nat,
    reservations: seq<Reservation>, attempts: seq<AttemptReceipt>)

  datatype Refusal = NotAuthorized | LedgerError | AlreadyConsumed

  datatype Outcome = Consumed(receipt: AttemptReceipt) | Refused(why: Refusal)

  /** The authenticated inputs: `authentic` is the verdict of the signature and expectation
      checks, `configured` that of the ledger-path and type checks. */
  datatype Inputs = Inputs(
    intent: Intents.Intent, trust: Intents.TrustStore, claim: Intents.ClaimReceipt,
    authentic: bool, configured: bool)

  datatype Call = Call(
    inputs: Inputs, verifiedAt: int, consumedAt: int, attemptId: Option<Id>, nonce: Id, constructs: bool)

  // ---------------------------------------------------------------------------------------
  // Authentication against the claim ledger

  predicate BoundHere(db: Db, p: Intents.Payload) {
    p.worker == db.worker && p.claimLedger == db.claimLedger && p.launchLedger == db.ledger
  }

  /** `now` is the verification time, `recoveredAt` the clock reading of claim recovery. */
  predicate Authenticated(
    claims: Intents.Db, db: Db, inputs: Inputs, now: int, recoveredAt: int, enforceValidity: bool)
  {
    && now >= 0 && inputs.configured
    && (enforceValidity ==> inputs.authentic && Intents.InWindow(inputs.intent.payload, now))
    && Intents.Recover(claims, inputs.intent, inputs.trust, inputs.authentic, recoveredAt)
       == Intents.Claimed(inputs.claim)
    && BoundHere(db, inputs.intent.payload)
    && (enforceValidity ==> inputs.claim.claimedAt <= now)
  }

  // ---------------------------------------------------------------------------------------
  // Queries

  function FindReservation(rows: seq<Reservation>, claim: Intents.ClaimReceipt): (r: Option<Reservation>)
    ensures r.Some? ==> r.value in rows && r.value.claim == claim
    ensures r.None? ==> forall row :: row in rows ==> row.claim != claim
  {
    Find(rows, (row: Reservation) => row.claim == claim)
  }

  function FindAttempt(rows: seq<AttemptReceipt>, claim: Intents.ClaimReceipt): (r: Option<AttemptReceipt>)
    ensures r.Some? ==> r.value in rows && r.value.claim == claim
    ensures r.None? ==> forall row :: row in rows ==> row.claim != claim
  {
    Find(rows, (row: AttemptReceipt) => row.claim == claim)
  }

  function FindAttemptByIntentId(rows: seq<AttemptReceipt>, intentId: Id): (r: Option<AttemptReceipt>)
    ensures r.Some? ==> r.value in rows && r.value.claim.payload.intentId == intentId
    ensures r.None? ==> forall row :: row in rows ==> row.claim.payload.intentId != intentId
  {
    Find(rows, (row: AttemptReceipt) => row.claim.payload.intentId == intentId)
  }

  /** Two claims share one of the identities a reservation makes unique. */
  predicate Overlap(a: Intents.ClaimReceipt, b: Intents.ClaimReceipt) {
    || a.payload.intentId == b.payload.intentId || a.intent == b.intent
    || a.payload.intentNonce == b.payload.intentNonce
    || a.claimId == b.claimId || a.claimNonce == b.claimNonce
  }

  predicate IdentityTaken(rows: seq<Reservation>, claim: Intents.ClaimReceipt) {
    exists i :: 0 <= i < |rows| && Overlap(rows[i].claim, claim)
  }

  predicate AttemptIdTaken(rows: seq<AttemptReceipt>, attemptId: Id) {
    exists i :: 0 <= i < |rows| && rows[i].attemptId == attemptId
  }

  predicate ReceiptTaken(rows: seq<AttemptReceipt>, receipt: AttemptReceipt) {
    exists i :: 0 <= i < |rows| && (rows[i].attemptNonce == receipt.attemptNonce || rows[i] == receipt)
  }

  predicate References(db: Db, receipt: AttemptReceipt) {
    exists i :: 0 <= i < |db.reservations| && db.reservations[i].claim == receipt.claim
                && db.reservations[i].reservedAt == receipt.consumedAt
  }

  predicate InsertViolates(db: Db, receipt: AttemptReceipt) {
    || (exists i :: 0 <= i < |db.attempts| &&
          (|| Overlap(db.attempts[i].claim, receipt.claim)
           || db.attempts[i].attemptId == receipt.attemptId
           || db.attempts[i].attemptNonce == receipt.attemptNonce
           || db.attempts[i] == receipt))
    || !References(db, receipt)
  }

  predicate Trusted(db: Db) {
    && (forall r :: r in db.reservations ==> r.reservedAt <= db.clock)
    && (forall a :: a in db.attempts ==> a.consumedAt <= db.clock && References(db, a))
  }

  predicate SameIdentity(r: Reservation, inputs: Inputs, db: Db) {
    && r.claim == inputs.claim && r.intent == inputs.intent && r.trust == inputs.trust
    && r.worker == db.worker && r.claimLedger == db.claimLedger && r.ledger == db.ledger
  }

  predicate HeldInWindow(claim: Intents.ClaimReceipt, t: int) {
    claim.claimedAt <= t < claim.payload.expiresAt
  }

  // ---------------------------------------------------------------------------------------
  // The transaction

  /** Everything after authentication. */
  function Consume(db: Db, call: Call): (Db, Outcome) {
    var claim := call.inputs.claim;
    if !Trusted(db) then (db, Refused(LedgerError))
    else if call.consumedAt < 0 || call.consumedAt < call.verifiedAt || call.consumedAt < claim.claimedAt
            || call.consumedAt < db.clock
    then (db, Refused(LedgerError))
    else
      var ticked := db.(clock := call.consumedAt);
      if call.consumedAt >= claim.payload.expiresAt then (ticked, Refused(LedgerError))
      else
        var existing := FindReservation(db.reservations, claim);
        if existing.Some? then
          if !SameIdentity(existing.value, call.inputs, db) || !HeldInWindow(claim, existing.value.reservedAt)
          then (db, Refused(LedgerError))
          else (ticked, Refused(AlreadyConsumed))
        else if IdentityTaken(db.reservations, claim) then (ticked, Refused(AlreadyConsumed))
        else Attach(Reserve(ticked, call), call)
  }

  function RowFor(db: Db, call: Call): Reservation
    requires call.consumedAt >= 0
  {
    Reservation(call.inputs.claim, call.inputs.intent, call.inputs.trust, db.worker, db.claimLedger, db.ledger,
                call.consumedAt)
  }

  function Reserve(db: Db, call: Call): Db
    requires call.consumedAt >= 0
  {
    db.(reservations := db.reservations + [RowFor(db, call)])
  }

  function ReceiptFor(db: Db, call: Call, attemptId: Id): AttemptReceipt
    requires call.consumedAt >= 0
  {
    AttemptReceipt(call.inputs.claim, db.worker, db.claimLedger, db.ledger, attemptId, call.nonce, call.consumedAt)
  }

  function Attach(reserved: Db, call: Call): (Db, Outcome)
    requires call.consumedAt >= 0
  {
    if call.attemptId.None? then (reserved, Refused(AlreadyConsumed))
    else if AttemptIdTaken(reserved.attempts, call.attemptId.value) then (reserved, Refused(AlreadyConsumed))
    else if !call.constructs then (reserved, Refused(AlreadyConsumed))
    else
      var receipt := ReceiptFor(reserved, call, call.attemptId.value);
      if ReceiptTaken(reserved.attempts, receipt) then (reserved, Refused(AlreadyConsumed))
      else if InsertViolates(reserved, receipt) then (reserved, Refused(AlreadyConsumed))
      else (reserved.(attempts := reserved.attempts + [receipt]), Consumed(receipt))
  }

  predicate Verify(db: Db, receipt: AttemptReceipt) {
    && receipt.worker == db.worker && receipt.claimLedger == db.claimLedger && receipt.ledger == db.ledger
    && Trusted(db)
    && FindAttemptByIntentId(db.attempts, receipt.claim.payload.intentId) == Some(receipt)
  }

  function Recover(claims: Intents.Db, db: Db, inputs: Inputs, now: int, recoveredAt: int): Outcome {
    if !Authenticated(claims, db, inputs, now, recoveredAt, false) then Refused(NotAuthorized)
    else if !Trusted(db) then Refused(LedgerError)
    else
      var reservation := FindReservation(db.reservations, inputs.claim);
      if reservation.None? then Refused(LedgerError)
      else if !SameIdentity(reservation.value, inputs, db)
              || !HeldInWindow(inputs.claim, reservation.value.reservedAt)
      then Refused(LedgerError)
      else
        var attempt := FindAttempt(db.attempts, inputs.claim);
        if attempt.None? then Refused(AlreadyConsumed)
        else if attempt.value.worker != db.worker || attempt.value.claimLedger != db.claimLedger
                || attempt.value.ledger != db.ledger
        then Refused(LedgerError)
        else if !Verify(db, attempt.value) then Refused(LedgerError)
        else Consumed(attempt.value)
  }

  // ---------------------------------------------------------------------------------------
  // The ledger as the object the orchestrator holds

  class Ledger {
    const worker: Id
    const claimLedger: Id
    const ledger: Id
    var clock: nat
    var reservations: seq<Reservation>
    var attempts: seq<AttemptReceipt>

    constructor (worker: Id, claimLedger: Id, ledger: Id)
      ensures Contents() == Db(worker, claimLedger, ledger, 0, [], [])
    {
      this.worker, this.claimLedger, this.ledger := worker, claimLedger, ledger;
      clock, reservations, attempts := 0, [], [];
    }

    function Contents(): Db
      reads this
    {
      Db(worker, claimLedger, ledger, clock, reservations, attempts)
    }

    method ConsumeLaunchAttempt(claims: Intents.Ledger, call: Call, recoveredAt: int) returns (r: Outcome)
      modifies this
      ensures if Authenticated(claims.Contents(), old(Contents()), call.inputs, call.verifiedAt, recoveredAt, true)
              then (Contents(), r) == Consume(old(Contents()), call)
              else Contents() == old(Contents()) && r == Refused(NotAuthorized)
    {
      if !Authenticated(claims.Contents(), Contents(), call.inputs, call.verifiedAt, recoveredAt, true) {
        return Refused(NotAuthorized);
      }
      var claim := call.inputs.claim;
      var saved := clock;
      if !Trusted(Contents()) {
        return Refused(LedgerError);
      }
      if call.consumedAt < 0 || call.consumedAt < call.verifiedAt || call.consumedAt < claim.claimedAt
         || call.consumedAt < clock
      {
        return Refused(LedgerError);
      }
      clock := call.consumedAt;
      if call.consumedAt >= claim.payload.expiresAt {
        return Refused(LedgerError);
      }
      var existing := FindReservation(reservations, claim);
      if existing.Some? {
        if !SameIdentity(existing.value, call.inputs, Contents())
           || !HeldInWindow(claim, existing.value.reservedAt)
        {
          clock := saved;
          return Refused(LedgerError);
        }
        return Refused(AlreadyConsumed);
      }
      if IdentityTaken(reservations, claim) {
        return Refused(AlreadyConsumed);
      }
      reservations := reservations + [RowFor(Contents(), call)];
      if call.attemptId.None? || AttemptIdTaken(attempts, call.attemptId.value) || !call.constructs {
        return Refused(AlreadyConsumed);
      }
      var receipt := ReceiptFor(Contents(), call, call.attemptId.value);
      if ReceiptTaken(attempts, receipt) || InsertViolates(Contents(), receipt) {
        return Refused(AlreadyConsumed);
      }
      attempts := attempts + [receipt];
      return Consumed(receipt);
    }
  }

  // ---------------------------------------------------------------------------------------
  // What every transaction keeps

  predicate DistinctReservations(rows: seq<Reservation>) {
    forall i, j :: 0 <= i < j < |rows| ==> !Overlap(rows[i].claim, rows[j].claim)
  }

  predicate DistinctAttempts(rows: seq<AttemptReceipt>) {
    forall i, j :: 0 <= i < j < |rows| ==>
      && !Overlap(rows[i].claim, rows[j].claim)
      && rows[i].attemptId != rows[j].attemptId && rows[i].attemptNonce != rows[j].attemptNonce
  }

  predicate GoodReservation(db: Db, r: Reservation) {
    && r.worker == db.worker && r.claimLedger == db.claimLedger && r.ledger == db.ledger
    && HeldInWindow(r.claim, r.reservedAt) && r.claim.intent == r.intent && r.claim.trust == r.trust
  }

  predicate GoodAttempt(db: Db, a: AttemptReceipt) {
    a.worker == db.worker && a.claimLedger == db.claimLedger && a.ledger == db.ledger
  }

  predicate WellFormed(db: Db) {
    && Trusted(db)
    && DistinctReservations(db.reservations) && DistinctAttempts(db.attempts)
    && (forall r :: r in db.reservations ==> GoodReservation(db, r))
    && (forall a :: a in db.attempts ==> GoodAttempt(db, a))
  }

  predicate Extends(db: Db, later: Db) {
    && later.worker == db.worker && later.claimLedger == db.claimLedger && later.ledger == db.ledger
    && db.clock <= later.clock
    && db.reservations <= later.reservations && db.attempts <= later.attempts
  }

  /** What authentication establishes about the inputs of a transaction. */
  predicate Vouched(inputs: Inputs) {
    inputs.claim.intent == inputs.intent && inputs.claim.trust == inputs.trust
  }

  predicate StepShape(db: Db, call: Call, next: Db, r: Outcome) {
    || (r.Refused? && next == db)
    || (r.Refused? && call.consumedAt >= db.clock && next == db.(clock := call.consumedAt))
    || (&& call.consumedAt >= db.clock && HeldInWindow(call.inputs.claim, call.consumedAt)
        && !IdentityTaken(db.reservations, call.inputs.claim)
        && (|| (r.Refused? && next == Reserve(db.(clock := call.consumedAt), call))
            || (&& r.Consumed? && call.attemptId.Some? && r.receipt == ReceiptFor(db, call, call.attemptId.value)
                && !AttemptIdTaken(db.attempts, r.receipt.attemptId) && !ReceiptTaken(db.attempts, r.receipt)
                && next == Reserve(db.(clock := call.consumedAt), call).(attempts := db.attempts + [r.receipt]))))
  }

  lemma ConsumeShape(db: Db, call: Call)
    ensures StepShape(db, call, Consume(db, call).0, Consume(db, call).1)
  {
  }

  lemma AttemptIsNew(db: Db, claim: Intents.ClaimReceipt)
    requires WellFormed(db) && !IdentityTaken(db.reservations, claim)
    ensures forall i :: 0 <= i < |db.attempts| ==> !Overlap(db.attempts[i].claim, claim)
  {
  }

  lemma ConsumeKeeps(db: Db, call: Call)
    requires WellFormed(db) && Vouched(call.inputs)
    ensures WellFormed(Consume(db, call).0) && Extends(db, Consume(db, call).0)
  {
    hide Consume, Overlap;
    ConsumeShape(db, call);
    var (next, r) := Consume(db, call);
    if next.reservations != db.reservations {
      var row := RowFor(db, call);
      assert next.reservations == db.reservations + [row];
      forall a | a in db.attempts ensures References(next, a) {
        assert References(db, a);
        var i :| 0 <= i < |db.reservations| && db.reservations[i].claim == a.claim
                 && db.reservations[i].reservedAt == a.consumedAt;
        assert next.reservations[i] == db.reservations[i];
      }
      if next.attempts != db.attempts {
        AttemptIsNew(db, call.inputs.claim);
        assert next.reservations[|db.reservations|] == row;
        assert References(next, r.receipt);
      }
    }
  }

  /** The integrity-error handler around the insert is dead code on well-formed ledgers. */
  lemma InsertNeverViolates(db: Db, call: Call)
    requires WellFormed(db) && call.consumedAt >= 0 && call.attemptId.Some?
    requires !IdentityTaken(db.reservations, call.inputs.claim)
    requires !AttemptIdTaken(db.attempts, call.attemptId.value)
    requires !ReceiptTaken(db.attempts, ReceiptFor(db, call, call.attemptId.value))
    ensures !InsertViolates(Reserve(db, call), ReceiptFor(db, call, call.attemptId.value))
  {
    hide Overlap;
    AttemptIsNew(db, call.inputs.claim);
    assert Reserve(db, call).reservations[|db.reservations|] == RowFor(db, call);
    assert References(Reserve(db, call), ReceiptFor(db, call, call.attemptId.value));
  }

  /** When exactly a well-formed ledger consumes an attempt. */
  lemma ConsumesExactlyWhen(db: Db, call: Call)
    requires WellFormed(db)
    ensures Consume(db, call).1.Consumed? <==>
              && call.verifiedAt <= call.consumedAt && db.clock <= call.consumedAt
              && HeldInWindow(call.inputs.claim, call.consumedAt)
              && !IdentityTaken(db.reservations, call.inputs.claim)
              && call.attemptId.Some? && call.constructs
              && !AttemptIdTaken(db.attempts, call.attemptId.value)
              && !ReceiptTaken(db.attempts, ReceiptFor(db, call, call.attemptId.value))
  {
    hide InsertViolates, SameIdentity, DistinctReservations, DistinctAttempts;
    if !IdentityTaken(db.reservations, call.inputs.claim) && call.consumedAt >= 0 && call.attemptId.Some?
       && !AttemptIdTaken(db.attempts, call.attemptId.value)
       && !ReceiptTaken(db.attempts, ReceiptFor(db, call, call.attemptId.value))
       && db.clock <= call.consumedAt
    {
      InsertNeverViolates(db.(clock := call.consumedAt), call);
    }
  }

  // ---------------------------------------------------------------------------------------
  // Whole runs

  predicate AllVouched(calls: seq<Call>) {
    forall i :: 0 <= i < |calls| ==> Vouched(calls[i].inputs)
  }

  function RunCalls(db: Db, calls: seq<Call>): Db
    decreases |calls|
  {
    if calls == [] then db else RunCalls(Consume(db, calls[0]).0, calls[1..])
  }

  lemma {:induction false} RunKeeps(db: Db, calls: seq<Call>)
    requires WellFormed(db) && AllVouched(calls)
    ensures WellFormed(RunCalls(db, calls)) && Extends(db, RunCalls(db, calls))
    decreases |calls|
  {
    hide Consume, WellFormed;
    if calls != [] {
      ConsumeKeeps(db, calls[0]);
      RunKeeps(Consume(db, calls[0]).0, calls[1..]);
    }
  }

  predicate Reserved(db: Db, claim: Intents.ClaimReceipt) {
    FindReservation(db.reservations, claim).Some?
  }

  predicate Tombstone(db: Db, claim: Intents.ClaimReceipt) {
    Reserved(db, claim) && FindAttempt(db.attempts, claim).None?
  }

  lemma ReservationIsUnique(db: Db, row: Reservation)
    requires WellFormed(db) && row in db.reservations
    ensures FindReservation(db.reservations, row.claim) == Some(row)
  {
  }

  lemma AttemptIsUnique(db: Db, row: AttemptReceipt)
    requires WellFormed(db) && row in db.attempts
    ensures FindAttempt(db.attempts, row.claim) == Some(row)
    ensures FindAttemptByIntentId(db.attempts, row.claim.payload.intentId) == Some(row)
  {
    var i :| 0 <= i < |db.attempts| && db.attempts[i] == row;
    var a := FindAttempt(db.attempts, row.claim).value;
    var j :| 0 <= j < |db.attempts| && db.attempts[j] == a;
    assert i == j;
    var b := FindAttemptByIntentId(db.attempts, row.claim.payload.intentId).value;
    var k :| 0 <= k < |db.attempts| && db.attempts[k] == b;
    assert i == k;
  }

  lemma ReservedStaysAsItIs(db: Db, call: Call, claim: Intents.ClaimReceipt)
    requires WellFormed(db) && Vouched(call.inputs) && Reserved(db, claim)
    ensures var (next, r) := Consume(db, call);
            && FindReservation(next.reservations, claim) == FindReservation(db.reservations, claim)
            && FindAttempt(next.attempts, claim) == FindAttempt(db.attempts, claim)
            && (r.Consumed? ==> !Overlap(claim, call.inputs.claim))
  {
    hide Consume, WellFormed;
    ConsumeShape(db, call);
    ConsumeKeeps(db, call);
    var (next, r) := Consume(db, call);
    var row := FindReservation(db.reservations, claim).value;
    var k :| 0 <= k < |db.reservations| && db.reservations[k] == row;
    assert next.reservations[k] == row;
    ReservationIsUnique(next, row);
    if FindAttempt(db.attempts, claim).Some? {
      var a := FindAttempt(db.attempts, claim).value;
      var m :| 0 <= m < |db.attempts| && db.attempts[m] == a;
      assert next.attempts[m] == a;
      AttemptIsUnique(next, a);
    }
  }

  /** Permanence: a consumed claim keeps its reservation and its receipt, or its lack of one,
      for ever; nothing that overlaps it is ever consumed again. */
  lemma {:induction false} ReservedForever(db: Db, calls: seq<Call>, call: Call, claim: Intents.ClaimReceipt)
    requires WellFormed(db) && AllVouched(calls) && Vouched(call.inputs) && Reserved(db, claim)
    ensures var later := RunCalls(db, calls);
            && FindReservation(later.reservations, claim) == FindReservation(db.reservations, claim)
            && FindAttempt(later.attempts, claim) == FindAttempt(db.attempts, claim)
            && (Overlap(claim, call.inputs.claim) ==> Consume(later, call).1.Refused?)
    decreases |calls|
  {
    hide Consume, WellFormed, Overlap;
    if calls == [] {
      ReservedStaysAsItIs(db, call, claim);
    } else {
      ReservedStaysAsItIs(db, calls[0], claim);
      ConsumeKeeps(db, calls[0]);
      ReservedForever(Consume(db, calls[0]).0, calls[1..], call, claim);
    }
  }

  lemma ConsumeReserves(db: Db, call: Call)
    requires WellFormed(db) && Consume(db, call).1.Consumed?
    ensures Reserved(Consume(db, call).0, call.inputs.claim)
    ensures Consume(db, call).1.receipt in Consume(db, call).0.attempts
    ensures Consume(db, call).1.receipt !in db.attempts
    ensures Consume(db, call).1.receipt.claim == call.inputs.claim
  {
  }

  lemma NoSecondReceipt(db: Db, first: Call, calls: seq<Call>, second: Call)
    requires WellFormed(db) && Vouched(first.inputs) && AllVouched(calls) && Vouched(second.inputs)
    requires Consume(db, first).1.Consumed? && Overlap(first.inputs.claim, second.inputs.claim)
    ensures Consume(RunCalls(Consume(db, first).0, calls), second).1.Refused?
  {
    ConsumeReserves(db, first);
    ConsumeKeeps(db, first);
    ReservedForever(Consume(db, first).0, calls, second, first.inputs.claim);
  }

  /** Exact recovery for authenticated inputs. */
  lemma RecoveryIsExact(claims: Intents.Db, db: Db, inputs: Inputs, now: int, recoveredAt: int)
    requires WellFormed(db) && Vouched(inputs)
    requires Authenticated(claims, db, inputs, now, recoveredAt, false)
    ensures forall a :: Recover(claims, db, inputs, now, recoveredAt) == Consumed(a)
                        <==> a in db.attempts && a.claim == inputs.claim
    ensures Recover(claims, db, inputs, now, recoveredAt) == Refused(AlreadyConsumed) <==> Tombstone(db, inputs.claim)
  {
    if Reserved(db, inputs.claim) {
      assert GoodReservation(db, FindReservation(db.reservations, inputs.claim).value);
    }
    forall a | a in db.attempts && a.claim == inputs.claim
      ensures Recover(claims, db, inputs, now, recoveredAt) == Consumed(a)
    {
      AttemptIsUnique(db, a);
      assert References(db, a) && GoodAttempt(db, a);
    }
  }

  /** Expiry is permanent for the launch ledger too. */
  lemma {:induction false} ExpiredForever(db: Db, calls: seq<Call>, call: Call)
    requires WellFormed(db) && AllVouched(calls) && call.inputs.claim.payload.expiresAt <= db.clock
    ensures Consume(RunCalls(db, calls), call).1.Refused?
    ensures Reserved(RunCalls(db, calls), call.inputs.claim) ==> Reserved(db, call.inputs.claim)
    decreases |calls|
  {
    hide Consume, WellFormed, Overlap;
    if calls == [] {
      ConsumeShape(db, call);
    } else {
      ConsumeKeeps(db, calls[0]);
      ExpiredForever(Consume(db, calls[0]).0, calls[1..], call);
      ConsumeShape(db, calls[0]);
    }
  }

  // ---------------------------------------------------------------------------------------
  // Both ledgers together

  /** Every launch reservation names a claim committed in the claim ledger, and its times are
      ordered: not before, claimed, consumed, expiry. */
  predicate Anchored(claims: Intents.Db, db: Db) {
    forall r :: r in db.reservations ==>
      && r.claim in claims.claims
      && r.claim.payload.notBefore <= r.claim.claimedAt <= r.reservedAt < r.claim.payload.expiresAt
  }

  /** Authentication means the claim is committed, unaltered and inside its own window. */
  lemma AuthenticationVouches(
    claims: Intents.Db, db: Db, inputs: Inputs, now: int, recoveredAt: int, enforceValidity: bool)
    requires Intents.WellFormed(claims)
    requires Authenticated(claims, db, inputs, now, recoveredAt, enforceValidity)
    ensures Vouched(inputs) && inputs.claim in claims.claims
    ensures inputs.claim.payload == inputs.intent.payload
    ensures Intents.InWindow(inputs.claim.payload, inputs.claim.claimedAt)
  {
  }

  lemma ConsumeKeepsAnchored(claims: Intents.Db, db: Db, call: Call)
    requires Anchored(claims, db) && call.inputs.claim in claims.claims
    requires call.inputs.claim.payload.notBefore <= call.inputs.claim.claimedAt
    ensures Anchored(claims, Consume(db, call).0)
  {
  }

  /** Authentication without the time checks outlasts anything that happens to either ledger. */
  lemma AuthenticationLasts(
    claims: Intents.Db, later: Intents.Db, db: Db, laterDb: Db, inputs: Inputs, now: int, asOf: int, recoveredAt: int,
    recoveredAsOf: int)
    requires Intents.WellFormed(claims) && Intents.WellFormed(later) && Intents.Extends(claims, later)
    requires Extends(db, laterDb) && asOf >= 0 && recoveredAsOf >= 0
    requires Authenticated(claims, db, inputs, now, recoveredAt, true)
    ensures Authenticated(later, laterDb, inputs, asOf, recoveredAsOf, false)
  {
    hide Intents.WellFormed;
    Intents.RecoveryIsExact(claims, inputs.intent, inputs.trust, recoveredAt);
    assert inputs.claim in later.claims;
    Intents.RecoveryIsExact(later, inputs.intent, inputs.trust, recoveredAsOf);
  }

  /** Round trip: whatever is called on either ledger after a consumption, and however late, recovery
      returns exactly the receipt that the consumption returned. */
  lemma ConsumeThenRecover(
    claims: Intents.Db, claimCalls: seq<Intents.Call>, db: Db, call: Call, calls: seq<Call>, recoveredAt: int,
    asOf: int, recoveredAsOf: int)
    requires Intents.WellFormed(claims) && WellFormed(db) && AllVouched(calls) && asOf >= 0 && recoveredAsOf >= 0
    requires Authenticated(claims, db, call.inputs, call.verifiedAt, recoveredAt, true)
    requires Consume(db, call).1.Consumed?
    ensures Recover(Intents.RunCalls(claims, claimCalls), RunCalls(Consume(db, call).0, calls), call.inputs, asOf,
                    recoveredAsOf)
         == Consume(db, call).1
  {
    hide Consume, WellFormed, Intents.WellFormed, Authenticated, Recover;
    AuthenticationVouches(claims, db, call.inputs, call.verifiedAt, recoveredAt, true);
    ConsumeKeeps(db, call);
    ConsumeReserves(db, call);
    var next := Consume(db, call).0;
    RunKeeps(next, calls);
    Intents.RunKeeps(claims, claimCalls);
    var later, laterDb := Intents.RunCalls(claims, claimCalls), RunCalls(next, calls);
    AuthenticationLasts(claims, later, db, laterDb, call.inputs, call.verifiedAt, asOf, recoveredAt, recoveredAsOf);
    assert Consume(db, call).1.receipt in laterDb.attempts;
    RecoveryIsExact(later, laterDb, call.inputs, asOf, recoveredAsOf);
  }
}
