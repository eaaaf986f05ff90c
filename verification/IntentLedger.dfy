/**
  The durable claim ledger of signed fixture intents. One `Claim` is one serialised
  transaction; rows are append-only sequences. A SHA-256 digest of a value is represented by
  the value itself, which is what an injective digest amounts to.
 */
module IntentLedger {
  import opened Common

  /** Identifiers, nonces and digests of opaque bytes: only equality matters. */
  type Id = nat

  /** The signed payload; `bindings` stands for the signed fields no ledger query mentions. */
  datatype Payload = Payload(
    intentId: Id, intentNonce: Id, worker: Id, claimLedger: Id, launchLedger: Id, policy: Id,
    notBefore: nat, expiresAt: nat, bindings: Id)

  datatype Intent = Intent(payload: Payload, keyId: Id, signature: Id)

  datatype TrustStore = TrustStore(storeId: Id, keys: Id)

  datatype Reservation = Reservation(intent: Intent, trust: TrustStore, worker: Id, ledger: Id, reservedAt: nat)

  /** `intent` is the digest column; `payload` the fields the receipt mirrors. */
  datatype ClaimReceipt = ClaimReceipt(
    intent: Intent, payload: Payload, trust: TrustStore, claimId: Id, claimNonce: Id, claimedAt: nat)

  datatype Db = Db(
    worker: Id, ledger: Id, clock: nat, reservations: seq<Reservation>, claims: seq<ClaimReceipt>)

  datatype Refusal = NotAuthorized | LedgerError | AlreadyClaimed

  datatype Outcome = Claimed(receipt: ClaimReceipt) | Refused(why: Refusal)

  /** One call: its inputs, the verdict of the signature and expectation checks, the two wall
      clock readings, the caller's claim id (`None` when malformed), the fresh nonce, and
      whether the receipt could be constructed. */
  datatype Call = Call(
    intent: Intent, trust: TrustStore, authentic: bool, verifiedAt: int, claimedAt: int,
    claimId: Option<Id>, nonce: Id, constructs: bool)

  predicate InWindow(p: Payload, t: int) {
    p.notBefore <= t < p.expiresAt
  }

  // ---------------------------------------------------------------------------------------
  // Queries

  function FindReservation(rows: seq<Reservation>, intent: Intent): (r: Option<Reservation>)
    ensures r.Some? ==> r.value in rows && r.value.intent == intent
    ensures r.None? ==> forall row :: row in rows ==> row.intent != intent
  {
    Find(rows, (row: Reservation) => row.intent == intent)
  }

  function FindClaim(rows: seq<ClaimReceipt>, intent: Intent): (r: Option<ClaimReceipt>)
    ensures r.Some? ==> r.value in rows && r.value.intent == intent
    ensures r.None? ==> forall row :: row in rows ==> row.intent != intent
  {
    Find(rows, (row: ClaimReceipt) => row.intent == intent)
  }

  function FindClaimById(rows: seq<ClaimReceipt>, intentId: Id): (r: Option<ClaimReceipt>)
    ensures r.Some? ==> r.value in rows && r.value.payload.intentId == intentId
    ensures r.None? ==> forall row :: row in rows ==> row.payload.intentId != intentId
  {
    Find(rows, (row: ClaimReceipt) => row.payload.intentId == intentId)
  }

  predicate IdentityTaken(rows: seq<Reservation>, p: Payload) {
    exists i :: 0 <= i < |rows| &&
      (rows[i].intent.payload.intentId == p.intentId || rows[i].intent.payload.intentNonce == p.intentNonce)
  }

  predicate ClaimIdTaken(rows: seq<ClaimReceipt>, claimId: Id) {
    exists i :: 0 <= i < |rows| && rows[i].claimId == claimId
  }

  predicate ReceiptTaken(rows: seq<ClaimReceipt>, receipt: ClaimReceipt) {
    exists i :: 0 <= i < |rows| && (rows[i].claimNonce == receipt.claimNonce || rows[i] == receipt)
  }

  /** The UNIQUE columns of the claim table and its foreign key into the reservations. */
  predicate InsertViolates(db: Db, receipt: ClaimReceipt) {
    || (exists i :: 0 <= i < |db.claims| &&
          (|| db.claims[i].payload.intentId == receipt.payload.intentId
           || db.claims[i].intent == receipt.intent
           || db.claims[i].payload.intentNonce == receipt.payload.intentNonce
           || db.claims[i].claimId == receipt.claimId
           || db.claims[i].claimNonce == receipt.claimNonce
           || db.claims[i] == receipt))
    || !References(db, receipt)
  }

  predicate References(db: Db, receipt: ClaimReceipt) {
    Reservation(receipt.intent, receipt.trust, db.worker, db.ledger, receipt.claimedAt) in db.reservations
  }

  /** What schema validation recomputes at the start of every transaction. */
  predicate Trusted(db: Db) {
    && (forall r :: r in db.reservations ==> r.reservedAt <= db.clock)
    && (forall c :: c in db.claims ==> c.claimedAt <= db.clock && References(db, c))
  }

  predicate SameIdentity(r: Reservation, intent: Intent, trust: TrustStore, worker: Id, ledger: Id) {
    r.intent == intent && r.trust == trust && r.worker == worker && r.ledger == ledger
  }

  predicate BoundHere(db: Db, p: Payload) {
    p.worker == db.worker && p.claimLedger == db.ledger
  }

  // ---------------------------------------------------------------------------------------
  // The transaction

  function Claim(db: Db, call: Call): (Db, Outcome) {
    var p := call.intent.payload;
    if call.verifiedAt < 0 || !call.authentic || !InWindow(p, call.verifiedAt) then (db, Refused(NotAuthorized))
    else if !BoundHere(db, p) then (db, Refused(LedgerError))
    else if !Trusted(db) then (db, Refused(LedgerError))
    else if call.claimedAt < 0 || call.claimedAt < call.verifiedAt || call.claimedAt < db.clock then
      (db, Refused(LedgerError))
    else
      var ticked := db.(clock := call.claimedAt);
      if !InWindow(p, call.claimedAt) then (ticked, Refused(LedgerError))
      else
        var existing := FindReservation(db.reservations, call.intent);
        if existing.Some? then
          if !SameIdentity(existing.value, call.intent, call.trust, db.worker, db.ledger)
             || !InWindow(p, existing.value.reservedAt)
          then (db, Refused(LedgerError))
          else (ticked, Refused(AlreadyClaimed))
        else if IdentityTaken(db.reservations, p) then (ticked, Refused(AlreadyClaimed))
        else Attach(Reserve(ticked, call), call)
  }

  function Reserve(db: Db, call: Call): Db
    requires call.claimedAt >= 0
  {
    db.(reservations := db.reservations
                        + [Reservation(call.intent, call.trust, db.worker, db.ledger, call.claimedAt)])
  }

  function ReceiptFor(call: Call, claimId: Id): ClaimReceipt
    requires call.claimedAt >= 0
  {
    ClaimReceipt(call.intent, call.intent.payload, call.trust, claimId, call.nonce, call.claimedAt)
  }

  /** The rest of the transaction once the reservation row is in: every way out commits it. */
  function Attach(reserved: Db, call: Call): (Db, Outcome)
    requires call.claimedAt >= 0
  {
    if call.claimId.None? then (reserved, Refused(AlreadyClaimed))
    else if ClaimIdTaken(reserved.claims, call.claimId.value) then (reserved, Refused(AlreadyClaimed))
    else if !call.constructs then (reserved, Refused(AlreadyClaimed))
    else
      var receipt := ReceiptFor(call, call.claimId.value);
      if ReceiptTaken(reserved.claims, receipt) then (reserved, Refused(AlreadyClaimed))
      else if InsertViolates(reserved, receipt) then (reserved, Refused(AlreadyClaimed))
      else (reserved.(claims := reserved.claims + [receipt]), Claimed(receipt))
  }

  /** The exact receipt is committed here. */
  predicate Verify(db: Db, receipt: ClaimReceipt) {
    && BoundHere(db, receipt.payload)
    && Trusted(db)
    && FindClaimById(db.claims, receipt.payload.intentId) == Some(receipt)
  }

  function Recover(db: Db, intent: Intent, trust: TrustStore, authentic: bool, now: int): Outcome {
    var p := intent.payload;
    if now < 0 || !authentic then Refused(NotAuthorized)
    else if !BoundHere(db, p) then Refused(LedgerError)
    else if !Trusted(db) then Refused(LedgerError)
    else
      var reservation := FindReservation(db.reservations, intent);
      if reservation.None? then Refused(LedgerError)
      else if !SameIdentity(reservation.value, intent, trust, db.worker, db.ledger)
              || !InWindow(p, reservation.value.reservedAt)
      then Refused(LedgerError)
      else
        var claim := FindClaim(db.claims, intent);
        if claim.None? then Refused(AlreadyClaimed)
        else if claim.value.payload != p || claim.value.trust != trust then Refused(LedgerError)
        else if !Verify(db, claim.value) then Refused(LedgerError)
        else Claimed(claim.value)
  }

  // ---------------------------------------------------------------------------------------
  // The ledger as the object its callers hold

  class Ledger {
    const worker: Id
    const ledger: Id
    var clock: nat
    var reservations: seq<Reservation>
    var claims: seq<ClaimReceipt>

    constructor (worker: Id, ledger: Id)
      ensures Contents() == Db(worker, ledger, 0, [], [])
    {
      this.worker, this.ledger := worker, ledger;
      clock, reservations, claims := 0, [], [];
    }

    function Contents(): Db
      reads this
    {
      Db(worker, ledger, clock, reservations, claims)
    }

    /** Updates go to the tables as the transaction makes them; an error that does not commit
        puts the saved contents back. */
    method ClaimIntent(call: Call) returns (r: Outcome)
      modifies this
      ensures (Contents(), r) == Claim(old(Contents()), call)
    {
      var p := call.intent.payload;
      if call.verifiedAt < 0 || !call.authentic || !InWindow(p, call.verifiedAt) {
        return Refused(NotAuthorized);
      }
      if p.worker != worker || p.claimLedger != ledger {
        return Refused(LedgerError);
      }
      var saved := clock;
      if !Trusted(Contents()) {
        return Refused(LedgerError);
      }
      if call.claimedAt < 0 || call.claimedAt < call.verifiedAt || call.claimedAt < clock {
        return Refused(LedgerError);
      }
      clock := call.claimedAt;
      if !InWindow(p, call.claimedAt) {
        return Refused(LedgerError);
      }
      var existing := FindReservation(reservations, call.intent);
      if existing.Some? {
        if !SameIdentity(existing.value, call.intent, call.trust, worker, ledger)
           || !InWindow(p, existing.value.reservedAt)
        {
          clock := saved;
          return Refused(LedgerError);
        }
        return Refused(AlreadyClaimed);
      }
      if IdentityTaken(reservations, p) {
        return Refused(AlreadyClaimed);
      }
      reservations := reservations + [Reservation(call.intent, call.trust, worker, ledger, call.claimedAt)];
      if call.claimId.None? || ClaimIdTaken(claims, call.claimId.value) || !call.constructs {
        return Refused(AlreadyClaimed);
      }
      var receipt := ReceiptFor(call, call.claimId.value);
      if ReceiptTaken(claims, receipt) || InsertViolates(Contents(), receipt) {
        return Refused(AlreadyClaimed);
      }
      claims := claims + [receipt];
      return Claimed(receipt);
    }
  }

  // ---------------------------------------------------------------------------------------
  // What every transaction keeps

  predicate DistinctReservations(rows: seq<Reservation>) {
    forall i, j :: 0 <= i < j < |rows| ==>
      && rows[i].intent.payload.intentId != rows[j].intent.payload.intentId
      && rows[i].intent.payload.intentNonce != rows[j].intent.payload.intentNonce
  }

  predicate DistinctClaims(rows: seq<ClaimReceipt>) {
    forall i, j :: 0 <= i < j < |rows| ==>
      && rows[i].payload.intentId != rows[j].payload.intentId
      && rows[i].payload.intentNonce != rows[j].payload.intentNonce
      && rows[i].claimId != rows[j].claimId && rows[i].claimNonce != rows[j].claimNonce
  }

  predicate GoodReservation(db: Db, r: Reservation) {
    && r.worker == db.worker && r.ledger == db.ledger && BoundHere(db, r.intent.payload)
    && InWindow(r.intent.payload, r.reservedAt)
  }

  predicate GoodClaim(c: ClaimReceipt) {
    c.payload == c.intent.payload
  }

  predicate WellFormed(db: Db) {
    && Trusted(db)
    && DistinctReservations(db.reservations) && DistinctClaims(db.claims)
    && (forall r :: r in db.reservations ==> GoodReservation(db, r))
    && (forall c :: c in db.claims ==> GoodClaim(c))
  }

  predicate Empty(db: Db) {
    db.reservations == [] && db.claims == []
  }

  /** `later` only adds rows and never turns its clock back. */
  predicate Extends(db: Db, later: Db) {
    && later.worker == db.worker && later.ledger == db.ledger
    && db.clock <= later.clock
    && db.reservations <= later.reservations && db.claims <= later.claims
  }

  /** What one transaction can do to a well-formed ledger: nothing, tick the clock, or append
      one reservation for the intent it was called with, alone or together with its receipt. */
  predicate StepShape(db: Db, call: Call, next: Db, r: Outcome) {
    || (r.Refused? && next == db)
    || (r.Refused? && call.claimedAt >= db.clock && next == db.(clock := call.claimedAt))
    || (&& call.claimedAt >= db.clock && InWindow(call.intent.payload, call.claimedAt)
        && BoundHere(db, call.intent.payload)
        && !IdentityTaken(db.reservations, call.intent.payload)
        && (|| (r.Refused? && next == Reserve(db.(clock := call.claimedAt), call))
            || (&& r.Claimed? && call.claimId.Some? && r.receipt == ReceiptFor(call, call.claimId.value)
                && !ClaimIdTaken(db.claims, r.receipt.claimId) && !ReceiptTaken(db.claims, r.receipt)
                && next == Reserve(db.(clock := call.claimedAt), call).(claims := db.claims + [r.receipt]))))
  }

  lemma ClaimShape(db: Db, call: Call)
    ensures StepShape(db, call, Claim(db, call).0, Claim(db, call).1)
  {
  }

  /** Every transaction keeps the ledger well formed and only extends it. */
  lemma ClaimKeeps(db: Db, call: Call)
    requires WellFormed(db)
    ensures WellFormed(Claim(db, call).0) && Extends(db, Claim(db, call).0)
  {
    hide Claim;
    ClaimShape(db, call);
    var next := Claim(db, call).0;
    if next.reservations != db.reservations {
      var row := Reservation(call.intent, call.trust, db.worker, db.ledger, call.claimedAt);
      assert next.reservations == db.reservations + [row];
      assert row in next.reservations;
      forall c | c in db.claims ensures References(next, c) {
        assert References(db, c);
      }
      if next.claims != db.claims {
        ClaimIsNew(db, call);
      }
    }
  }

  /** A receipt's intent identity cannot already be claimed when it is not reserved. */
  lemma ClaimIsNew(db: Db, call: Call)
    requires WellFormed(db) && !IdentityTaken(db.reservations, call.intent.payload)
    ensures forall i :: 0 <= i < |db.claims| ==>
              && db.claims[i].payload.intentId != call.intent.payload.intentId
              && db.claims[i].payload.intentNonce != call.intent.payload.intentNonce
              && db.claims[i].intent != call.intent
  {
    forall i | 0 <= i < |db.claims|
      ensures && db.claims[i].payload.intentId != call.intent.payload.intentId
              && db.claims[i].payload.intentNonce != call.intent.payload.intentNonce
              && db.claims[i].intent != call.intent
    {
      var c := db.claims[i];
      assert c in db.claims && References(db, c);
      var row := Reservation(c.intent, c.trust, db.worker, db.ledger, c.claimedAt);
      var k :| 0 <= k < |db.reservations| && db.reservations[k] == row;
    }
  }

  /** The insert that the code guards with an integrity-error handler never violates a
      constraint: the handler is dead code on every well-formed ledger. */
  lemma InsertNeverViolates(db: Db, call: Call)
    requires WellFormed(db) && call.claimedAt >= 0 && call.claimId.Some?
    requires !IdentityTaken(db.reservations, call.intent.payload)
    requires !ClaimIdTaken(db.claims, call.claimId.value)
    requires !ReceiptTaken(db.claims, ReceiptFor(call, call.claimId.value))
    ensures !InsertViolates(Reserve(db, call), ReceiptFor(call, call.claimId.value))
  {
    ClaimIsNew(db, call);
    var row := Reservation(call.intent, call.trust, db.worker, db.ledger, call.claimedAt);
    assert Reserve(db, call).reservations == db.reservations + [row];
    assert row in Reserve(db, call).reservations;
  }

  /** When exactly a well-formed ledger claims. */
  lemma ClaimsExactlyWhen(db: Db, call: Call)
    requires WellFormed(db)
    ensures Claim(db, call).1.Claimed? <==>
              var p := call.intent.payload;
              && call.authentic && BoundHere(db, p)
              && call.verifiedAt >= 0 && InWindow(p, call.verifiedAt) && InWindow(p, call.claimedAt)
              && call.verifiedAt <= call.claimedAt && db.clock <= call.claimedAt
              && !IdentityTaken(db.reservations, p)
              && call.claimId.Some? && call.constructs
              && !ClaimIdTaken(db.claims, call.claimId.value)
              && !ReceiptTaken(db.claims, ReceiptFor(call, call.claimId.value))
  {
    hide InsertViolates, SameIdentity, DistinctReservations, DistinctClaims;
    var p := call.intent.payload;
    if IdentityTaken(db.reservations, p) {
    } else if call.claimedAt >= 0 && call.claimId.Some? && !ClaimIdTaken(db.claims, call.claimId.value)
       && !ReceiptTaken(db.claims, ReceiptFor(call, call.claimId.value))
    {
      var ticked := db.(clock := call.claimedAt);
      if db.clock <= call.claimedAt {
        InsertNeverViolates(ticked, call);
      }
    }
  }

  // ---------------------------------------------------------------------------------------
  // Whole runs

  function RunCalls(db: Db, calls: seq<Call>): Db
    decreases |calls|
  {
    if calls == [] then db else RunCalls(Claim(db, calls[0]).0, calls[1..])
  }

  lemma {:induction false} RunKeeps(db: Db, calls: seq<Call>)
    requires WellFormed(db)
    ensures WellFormed(RunCalls(db, calls)) && Extends(db, RunCalls(db, calls))
    decreases |calls|
  {
    hide Claim, WellFormed;
    if calls != [] {
      ClaimKeeps(db, calls[0]);
      RunKeeps(Claim(db, calls[0]).0, calls[1..]);
      ExtendsTransitive(db, Claim(db, calls[0]).0, RunCalls(db, calls));
    }
  }

  lemma ExtendsTransitive(a: Db, b: Db, c: Db)
    requires Extends(a, b) && Extends(b, c)
    ensures Extends(a, c)
  {
  }

  lemma EmptyIsWellFormed(db: Db)
    requires Empty(db)
    ensures WellFormed(db)
  {
  }

  predicate Reserved(db: Db, intent: Intent) {
    FindReservation(db.reservations, intent).Some?
  }

  /** A reservation without a receipt. */
  predicate Tombstone(db: Db, intent: Intent) {
    Reserved(db, intent) && FindClaim(db.claims, intent).None?
  }

  /** In a well-formed ledger a lookup finds the row with that key. */
  lemma ReservationIsUnique(db: Db, row: Reservation)
    requires WellFormed(db) && row in db.reservations
    ensures FindReservation(db.reservations, row.intent) == Some(row)
  {
  }

  lemma ClaimIsUnique(db: Db, row: ClaimReceipt)
    requires WellFormed(db) && row in db.claims
    ensures FindClaim(db.claims, row.intent) == Some(row)
    ensures FindClaimById(db.claims, row.payload.intentId) == Some(row)
  {
  }

  /** A step can attach a receipt only to a reservation made by that same step. */
  lemma ReservedStaysAsItIs(db: Db, call: Call, intent: Intent)
    requires WellFormed(db) && Reserved(db, intent)
    ensures var (next, r) := Claim(db, call);
            && FindReservation(next.reservations, intent) == FindReservation(db.reservations, intent)
            && FindClaim(next.claims, intent) == FindClaim(db.claims, intent)
            && (r.Claimed? ==> r.receipt.intent.payload.intentId != intent.payload.intentId
                               && r.receipt.intent.payload.intentNonce != intent.payload.intentNonce)
  {
    hide Claim, WellFormed;
    ClaimShape(db, call);
    ClaimKeeps(db, call);
    var (next, r) := Claim(db, call);
    var row := FindReservation(db.reservations, intent).value;
    var k :| 0 <= k < |db.reservations| && db.reservations[k] == row;
    assert next.reservations[k] == row;
    ReservationIsUnique(next, row);
    if FindClaim(db.claims, intent).Some? {
      var c := FindClaim(db.claims, intent).value;
      var m :| 0 <= m < |db.claims| && db.claims[m] == c;
      assert next.claims[m] == c;
      ClaimIsUnique(next, c);
    }
  }

  /** Permanence: once an intent is reserved, no continuation of the run removes or changes
      the reservation, changes which receipt (if any) it carries, or yields a receipt for any
      intent with the same id or nonce. */
  lemma {:induction false} ReservedForever(db: Db, calls: seq<Call>, call: Call, intent: Intent)
    requires WellFormed(db) && Reserved(db, intent)
    ensures var later := RunCalls(db, calls);
            && FindReservation(later.reservations, intent) == FindReservation(db.reservations, intent)
            && FindClaim(later.claims, intent) == FindClaim(db.claims, intent)
            && (call.intent.payload.intentId == intent.payload.intentId
                || call.intent.payload.intentNonce == intent.payload.intentNonce
                ==> Claim(later, call).1.Refused?)
    decreases |calls|
  {
    hide Claim, WellFormed;
    if calls == [] {
      ReservedStaysAsItIs(db, call, intent);
      ClaimShape(db, call);
    } else {
      ReservedStaysAsItIs(db, calls[0], intent);
      ClaimKeeps(db, calls[0]);
      ReservedForever(Claim(db, calls[0]).0, calls[1..], call, intent);
    }
  }

  /** A run never hands out two receipts for one intent id or nonce. */
  lemma NoSecondReceipt(db: Db, first: Call, calls: seq<Call>, second: Call)
    requires WellFormed(db) && Claim(db, first).1.Claimed?
    requires || second.intent.payload.intentId == first.intent.payload.intentId
             || second.intent.payload.intentNonce == first.intent.payload.intentNonce
    ensures Claim(RunCalls(Claim(db, first).0, calls), second).1.Refused?
  {
    ClaimReserves(db, first);
    ClaimKeeps(db, first);
    ReservedForever(Claim(db, first).0, calls, second, first.intent);
  }

  lemma ClaimReserves(db: Db, call: Call)
    requires WellFormed(db) && Claim(db, call).1.Claimed?
    ensures Reserved(Claim(db, call).0, call.intent)
    ensures Claim(db, call).1.receipt in Claim(db, call).0.claims
    ensures Claim(db, call).1.receipt.intent == call.intent && Claim(db, call).1.receipt.trust == call.trust
  {
  }

  /** Exact recovery: on a well-formed ledger the recovered receipt is the committed one, the
      terminal error means a tombstone, and the two cases are decided by what is stored. */
  lemma RecoveryIsExact(db: Db, intent: Intent, trust: TrustStore, now: nat)
    requires WellFormed(db) && BoundHere(db, intent.payload)
    ensures forall c :: Recover(db, intent, trust, true, now) == Claimed(c)
                        <==> c in db.claims && c.intent == intent && c.trust == trust
    ensures Recover(db, intent, trust, true, now) == Refused(AlreadyClaimed)
            <==> Tombstone(db, intent) && FindReservation(db.reservations, intent).value.trust == trust
  {
  }

  /** Whatever happens after a claim, recovery returns exactly the receipt that was committed. */
  lemma ClaimThenRecover(db: Db, call: Call, calls: seq<Call>, now: nat)
    requires WellFormed(db) && Claim(db, call).1.Claimed?
    ensures Recover(RunCalls(Claim(db, call).0, calls), call.intent, call.trust, true, now) == Claim(db, call).1
  {
    hide Claim, WellFormed;
    ClaimKeeps(db, call);
    ClaimReserves(db, call);
    ClaimShape(db, call);
    var next := Claim(db, call).0;
    var later := RunCalls(next, calls);
    RunKeeps(next, calls);
    var receipt := Claim(db, call).1.receipt;
    assert receipt in later.claims;
    RecoveryIsExact(later, call.intent, call.trust, now);
  }

  /** Expiry is permanent: once the durable clock has reached an intent's expiry, no
      continuation of the run reserves it anew or claims it, whatever the wall clock says. */
  lemma {:induction false} ExpiredForever(db: Db, calls: seq<Call>, call: Call)
    requires WellFormed(db) && call.intent.payload.expiresAt <= db.clock
    ensures Claim(RunCalls(db, calls), call).1.Refused?
    ensures Reserved(RunCalls(db, calls), call.intent) ==> Reserved(db, call.intent)
    decreases |calls|
  {
    hide Claim, WellFormed;
    if calls == [] {
      ClaimShape(db, call);
    } else {
      var next := Claim(db, calls[0]).0;
      ClaimKeeps(db, calls[0]);
      ExpiredForever(next, calls[1..], call);
      ClaimShape(db, calls[0]);
    }
  }

  /** A claim whose serialised clock reading is past expiry commits the reading, and that
      alone shuts the intent out of every continuation of the run. */
  lemma LateClaimShutsOut(db: Db, late: Call, calls: seq<Call>, call: Call)
    requires WellFormed(db) && late.authentic && BoundHere(db, late.intent.payload)
    requires late.verifiedAt >= 0 && InWindow(late.intent.payload, late.verifiedAt)
    requires late.claimedAt >= db.clock && late.claimedAt >= late.intent.payload.expiresAt
    requires call.intent == late.intent
    ensures Claim(db, late) == (db.(clock := late.claimedAt), Refused(LedgerError))
    ensures Claim(RunCalls(Claim(db, late).0, calls), call).1.Refused?
  {
    ClaimKeeps(db, late);
    ExpiredForever(Claim(db, late).0, calls, call);
  }
}
