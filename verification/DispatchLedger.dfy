/**
  The dispatch ledger: one-shot claims of signed authorizations, retries that name their
  parent's exact receipt, and a durable clock. Digests are opaque values; the ledger's own
  uniqueness checks are all that is used about them.
 */
module DispatchLedger {
  import opened Common

  type Id = nat

  const MAX_RETRY_INDEX := 16
  const MAX_LIFETIME := 15 * 60

  datatype Payload = Payload(
    id: Id, nonce: Id, binding: Id, issuedAt: nat, notBefore: nat, expiresAt: nat,
    retryIndex: nat, parentId: Option<Id>, parentReceipt: Option<Id>)

  /** One row; `envelope` and `receipt` are the digests of the signed envelope and of the
      admission receipt. */
  datatype Claim = Claim(
    id: Id, envelope: Id, nonce: Id, claimId: Id, claimNonce: Id, claimedAt: nat, receipt: Id, binding: Id,
    retryIndex: nat, parentId: Option<Id>, parentReceipt: Option<Id>)

  datatype Db = Db(clock: nat, claims: seq<Claim>)

  datatype Refusal = NotAuthorized | LedgerError | AlreadyClaimed

  datatype Outcome = Claimed(claim: Claim) | Refused(why: Refusal)

  /** One call. `authentic` is the verdict of the signature, key and expectation checks;
      `receipt` is the digest of the receipt built for this call; `constructs` tells whether it
      could be built. */
  datatype Call = Call(
    payload: Payload, envelope: Id, authentic: bool, verifiedAt: int, claimedAt: int,
    claimId: Id, claimNonce: Id, receipt: Id, constructs: bool)

  predicate PayloadValid(p: Payload) {
    && p.issuedAt <= p.notBefore < p.expiresAt && p.expiresAt - p.issuedAt <= MAX_LIFETIME
    && p.retryIndex <= MAX_RETRY_INDEX
    && (p.retryIndex == 0 ==> p.parentId.None? && p.parentReceipt.None?)
    && (p.retryIndex > 0 ==> p.parentId.Some? && p.parentReceipt.Some?)
    && p.parentId != Some(p.id)
  }

  predicate InWindow(p: Payload, t: int) {
    p.notBefore <= t < p.expiresAt
  }

  /** A row shares a column that must be unique with the receipt about to be stored. */
  predicate Clashes(row: Claim, c: Claim) {
    || row.id == c.id || row.envelope == c.envelope || row.nonce == c.nonce
    || row.claimId == c.claimId || row.claimNonce == c.claimNonce || row.receipt == c.receipt
    || (c.parentId.Some? && row.parentId == c.parentId)
    || (c.parentReceipt.Some? && row.parentReceipt == c.parentReceipt)
  }

  predicate Conflict(rows: seq<Claim>, c: Claim) {
    exists i :: 0 <= i < |rows| && Clashes(rows[i], c)
  }

  function FindClaim(rows: seq<Claim>, id: Id): (r: Option<Claim>)
    ensures r.Some? ==> r.value in rows && r.value.id == id
    ensures r.None? ==> forall row :: row in rows ==> row.id != id
  {
    Find(rows, (row: Claim) => row.id == id)
  }

  /** The parent row the payload names is there, one step up, same binding, claimed before the
      retry was issued, with exactly the receipt named. */
  predicate ParentFits(rows: seq<Claim>, p: Payload) {
    p.parentId.Some? ==>
      var parent := FindClaim(rows, p.parentId.value);
      && parent.Some? && parent.value.retryIndex == p.retryIndex - 1 && parent.value.binding == p.binding
      && p.issuedAt >= parent.value.claimedAt && p.parentReceipt == Some(parent.value.receipt)
  }

  function RowFor(call: Call): Claim
    requires call.claimedAt >= 0
  {
    var p := call.payload;
    Claim(p.id, call.envelope, p.nonce, call.claimId, call.claimNonce, call.claimedAt, call.receipt, p.binding,
          p.retryIndex, p.parentId, p.parentReceipt)
  }

  // ---------------------------------------------------------------------------------------
  // The two transactions of a claim

  function Advance(db: Db, observed: int): Option<Db> {
    if observed < 0 || observed < db.clock then None else Some(db.(clock := observed))
  }

  predicate Verified(call: Call) {
    call.authentic && PayloadValid(call.payload) && InWindow(call.payload, call.verifiedAt)
  }

  /** The claim transaction of a call that was verified. */
  function Commit(db: Db, call: Call): (Db, Outcome) {
    if call.claimedAt < 0 || call.claimedAt < db.clock then (db, Refused(LedgerError))
    else
      var ticked := db.(clock := call.claimedAt);
      if !InWindow(call.payload, call.claimedAt) then (ticked, Refused(LedgerError))
      else if !call.constructs then (ticked, Refused(LedgerError))
      else
        var row := RowFor(call);
        if Conflict(db.claims, row) then (ticked, Refused(AlreadyClaimed))
        else if !ParentFits(db.claims, call.payload) then (ticked, Refused(LedgerError))
        else (ticked.(claims := db.claims + [row]), Claimed(row))
  }

  /** The row stored under the receipt's authorization id is exactly this one. */
  predicate Verify(db: Db, claim: Claim) {
    FindClaim(db.claims, claim.id) == Some(claim)
  }

  class Ledger {
    var clock: nat
    var claims: seq<Claim>

    constructor ()
      ensures Contents() == Db(0, [])
    {
      clock, claims := 0, [];
    }

    function Contents(): Db
      reads this
    {
      Db(clock, claims)
    }

    method AdvanceClock(observed: int) returns (ok: bool)
      modifies this`clock
      ensures ok <==> Advance(old(Contents()), observed).Some?
      ensures Contents() == if ok then Advance(old(Contents()), observed).value else old(Contents())
    {
      if observed < 0 || observed < clock {
        return false;
      }
      clock := observed;
      return true;
    }

    method ClaimAuthorization(call: Call) returns (r: Outcome)
      modifies this
      ensures var advanced := Advance(old(Contents()), call.verifiedAt);
              if advanced.None? then Contents() == old(Contents()) && r == Refused(LedgerError)
              else if !Verified(call) then Contents() == advanced.value && r == Refused(NotAuthorized)
              else (Contents(), r) == Commit(advanced.value, call)
    {
      var ok := AdvanceClock(call.verifiedAt);
      if !ok {
        return Refused(LedgerError);
      }
      if !Verified(call) {
        return Refused(NotAuthorized);
      }
      if call.claimedAt < 0 || call.claimedAt < clock {
        return Refused(LedgerError);
      }
      clock := call.claimedAt;
      if !InWindow(call.payload, call.claimedAt) {
        return Refused(LedgerError);
      }
      if !call.constructs {
        return Refused(LedgerError);
      }
      var row := RowFor(call);
      if Conflict(claims, row) {
        return Refused(AlreadyClaimed);
      }
      if !ParentFits(claims, call.payload) {
        return Refused(LedgerError);
      }
      claims := claims + [row];
      return Claimed(row);
    }
  }

  // ---------------------------------------------------------------------------------------
  // Any interleaving of any number of callers

  /** Callers interleave transaction by transaction; a claim transaction is only ever started
      for a verified call. */
  datatype Step = AdvanceStep(observed: int) | CommitStep(call: Call)

  function Next(db: Db, step: Step): Db {
    match step
    case AdvanceStep(observed) => var r := Advance(db, observed); if r.Some? then r.value else db
    case CommitStep(call) => if Verified(call) then Commit(db, call).0 else db
  }

  function Run(db: Db, steps: seq<Step>): Db
    decreases |steps|
  {
    if steps == [] then db else Run(Next(db, steps[0]), steps[1..])
  }

  // ---------------------------------------------------------------------------------------
  // The invariant

  predicate Distinct(rows: seq<Claim>) {
    forall i, j :: 0 <= i < j < |rows| ==> !Clashes(rows[i], rows[j])
  }

  /** `child` is the retry of `parent`. */
  predicate ParentOf(parent: Claim, child: Claim) {
    && child.parentId == Some(parent.id) && child.parentReceipt == Some(parent.receipt)
    && child.retryIndex == parent.retryIndex + 1 && child.binding == parent.binding
    && parent.claimedAt <= child.claimedAt
  }

  predicate Rooted(rows: seq<Claim>, i: nat)
    requires i < |rows|
  {
    if rows[i].retryIndex == 0 then rows[i].parentId.None? && rows[i].parentReceipt.None?
    else exists j :: 0 <= j < i && ParentOf(rows[j], rows[i])
  }

  predicate WellFormed(db: Db) {
    && Distinct(db.claims)
    && (forall i :: 0 <= i < |db.claims| ==> db.claims[i].claimedAt <= db.clock)
    && (forall i :: 0 <= i < |db.claims| ==> Rooted(db.claims, i))
  }

  predicate Extends(db: Db, later: Db) {
    db.clock <= later.clock && db.claims <= later.claims
  }

  lemma CommitKeeps(db: Db, call: Call)
    requires WellFormed(db) && Verified(call)
    ensures WellFormed(Commit(db, call).0) && Extends(db, Commit(db, call).0)
  {
    hide Clashes;
    var (next, r) := Commit(db, call);
    if r.Claimed? {
      var row := RowFor(call);
      forall i | 0 <= i < |next.claims| ensures Rooted(next.claims, i) {
        if i < |db.claims| {
          assert Rooted(db.claims, i);
          if db.claims[i].retryIndex > 0 {
            var j :| 0 <= j < i && ParentOf(db.claims[j], db.claims[i]);
            assert ParentOf(next.claims[j], next.claims[i]);
          }
        } else if row.retryIndex > 0 {
          var parent := FindClaim(db.claims, call.payload.parentId.value).value;
          var j :| 0 <= j < |db.claims| && db.claims[j] == parent;
          assert ParentOf(next.claims[j], next.claims[i]);
        }
      }
      forall i, j | 0 <= i < j < |next.claims| ensures !Clashes(next.claims[i], next.claims[j]) {
        if j == |db.claims| {
          assert !Clashes(db.claims[i], row);
        }
      }
    }
  }

  /** `parent` is the row that the retry names, claimed before the retry was issued. */
  predicate RetryOf(parent: Claim, p: Payload) {
    && p.parentId == Some(parent.id) && p.parentReceipt == Some(parent.receipt)
    && p.retryIndex == parent.retryIndex + 1 && p.binding == parent.binding && parent.claimedAt <= p.issuedAt
  }

  /** A verified call is claimed exactly when the clock has not moved back, the window is open,
      the receipt can be built, nothing it uses was used before and, for a retry, its parent is
      there. It counts as already claimed exactly when only the reuse stands in the way. */
  lemma ClaimsExactlyWhen(db: Db, call: Call)
    requires WellFormed(db) && Verified(call)
    ensures var timely := call.claimedAt >= db.clock && InWindow(call.payload, call.claimedAt) && call.constructs;
            && (Commit(db, call).1.Claimed? <==>
                  && timely && (forall i :: 0 <= i < |db.claims| ==> !Clashes(db.claims[i], RowFor(call)))
                  && (call.payload.retryIndex > 0 ==>
                        exists i :: 0 <= i < |db.claims| && RetryOf(db.claims[i], call.payload)))
            && (Commit(db, call).1 == Refused(AlreadyClaimed) <==>
                  timely && exists i :: 0 <= i < |db.claims| && Clashes(db.claims[i], RowFor(call)))
  {
  }

  lemma {:induction false} RunKeeps(db: Db, steps: seq<Step>)
    requires WellFormed(db)
    ensures WellFormed(Run(db, steps)) && Extends(db, Run(db, steps))
    decreases |steps|
  {
    hide Commit, Distinct, Rooted, Verified;
    if steps != [] {
      if steps[0].CommitStep? && Verified(steps[0].call) {
        CommitKeeps(db, steps[0].call);
      }
      RunKeeps(Next(db, steps[0]), steps[1..]);
    }
  }

  lemma EmptyIsWellFormed(clock: nat)
    ensures WellFormed(Db(clock, []))
  {
  }

  /** Nothing is used twice: after a claim, no continuation claims anything that shares an
      authorization id, envelope, nonce, claim id, claim nonce, receipt, or retry parent. */
  lemma NoReuse(db: Db, first: Call, steps: seq<Step>, second: Call)
    requires WellFormed(db) && Verified(first) && Verified(second) && second.claimedAt >= 0
    requires Commit(db, first).1.Claimed? && Clashes(RowFor(first), RowFor(second))
    ensures Commit(Run(Commit(db, first).0, steps), second).1.Refused?
  {
    hide Clashes;
    var next := Commit(db, first).0;
    CommitKeeps(db, first);
    RunKeeps(next, steps);
    var later := Run(next, steps);
    assert next.claims[|db.claims|] == RowFor(first);
    assert later.claims[|db.claims|] == RowFor(first);
  }

  /** Expiry is permanent, also when the clock moved in a rejected call. */
  lemma ExpiredForever(db: Db, steps: seq<Step>, call: Call)
    requires WellFormed(db) && call.payload.expiresAt <= db.clock
    ensures Commit(Run(db, steps), call).1.Refused?
  {
    RunKeeps(db, steps);
  }

  /** A call seen past its expiry leaves a mark that no later clock can undo, although it
      stores nothing. */
  lemma LateCallShutsOut(db: Db, late: Call, steps: seq<Step>, call: Call)
    requires WellFormed(db) && Verified(late) && db.clock <= late.claimedAt
    requires late.payload.expiresAt <= late.claimedAt && call.payload == late.payload
    ensures Commit(db, late) == (db.(clock := late.claimedAt), Refused(LedgerError))
    ensures Commit(Run(Commit(db, late).0, steps), call).1.Refused?
  {
    CommitKeeps(db, late);
    ExpiredForever(Commit(db, late).0, steps, call);
  }

  /** A receipt verifies exactly when it is one of the stored rows. */
  lemma VerifiesExactly(db: Db, claim: Claim)
    requires WellFormed(db)
    ensures Verify(db, claim) <==> claim in db.claims
  {
  }

  /** A claim, once committed, verifies for ever. */
  lemma ClaimThenVerify(db: Db, call: Call, steps: seq<Step>)
    requires WellFormed(db) && Verified(call) && Commit(db, call).1.Claimed?
    ensures Verify(Run(Commit(db, call).0, steps), RowFor(call))
  {
    hide Rooted, Verify;
    var next := Commit(db, call).0;
    CommitKeeps(db, call);
    RunKeeps(next, steps);
    var later := Run(next, steps);
    assert next.claims[|db.claims|] == RowFor(call);
    assert later.claims[|db.claims|] == RowFor(call);
    VerifiesExactly(later, RowFor(call));
  }

  // ---------------------------------------------------------------------------------------
  // Retry lineages

  ghost function ParentIndex(rows: seq<Claim>, i: nat): (j: nat)
    requires i < |rows| && Rooted(rows, i) && rows[i].retryIndex > 0
    ensures j < i && ParentOf(rows[j], rows[i])
  {
    var j :| 0 <= j < i && ParentOf(rows[j], rows[i]);
    j
  }

  predicate AllRooted(rows: seq<Claim>) {
    forall i :: 0 <= i < |rows| ==> Rooted(rows, i)
  }

  /** Root first, claim `i` last. */
  ghost function Lineage(rows: seq<Claim>, i: nat): (chain: seq<nat>)
    requires i < |rows| && AllRooted(rows)
    ensures |chain| == rows[i].retryIndex + 1 && chain[|chain| - 1] == i
    ensures forall k :: 0 <= k < |chain| ==> chain[k] <= i
    decreases i
  {
    if rows[i].retryIndex == 0 then [i] else Lineage(rows, ParentIndex(rows, i)) + [i]
  }

  /** Position `k` of a lineage is at depth `k`, and the next one is its retry. */
  predicate Climbs(rows: seq<Claim>, chain: seq<nat>, k: nat, binding: Id)
    requires k < |chain| && forall i :: 0 <= i < |chain| ==> chain[i] < |rows|
  {
    && rows[chain[k]].retryIndex == k && rows[chain[k]].binding == binding
    && (k + 1 < |chain| ==> chain[k] < chain[k + 1] && ParentOf(rows[chain[k]], rows[chain[k + 1]]))
  }

  /** A lineage climbs one retry index at a time, each claim naming its parent's exact receipt,
      with one binding and claim times that never decrease. */
  lemma {:induction false} LineageIsAChain(rows: seq<Claim>, i: nat)
    requires i < |rows| && AllRooted(rows)
    ensures forall k :: 0 <= k <= rows[i].retryIndex ==> Climbs(rows, Lineage(rows, i), k, rows[i].binding)
    decreases i
  {
    var chain := Lineage(rows, i);
    if rows[i].retryIndex > 0 {
      var parent := ParentIndex(rows, i);
      LineageIsAChain(rows, parent);
      var above := Lineage(rows, parent);
      forall k | 0 <= k <= rows[i].retryIndex ensures Climbs(rows, chain, k, rows[i].binding) {
        if k < |above| {
          assert Climbs(rows, above, k, rows[parent].binding) && chain[k] == above[k];
          if k + 1 < |above| {
            assert chain[k + 1] == above[k + 1];
          }
        }
      }
    }
  }

  /** No claim has two children. */
  lemma AtMostOneChild(rows: seq<Claim>, parent: nat, a: nat, b: nat)
    requires Distinct(rows) && parent < |rows| && a < |rows| && b < |rows|
    requires ParentOf(rows[parent], rows[a]) && ParentOf(rows[parent], rows[b])
    ensures a == b
  {
  }

  /** Lineages are linear and disjoint: two claims at the same depth of lineages with the same
      root are the same claim. */
  lemma {:induction false} LineagesAreLinear(rows: seq<Claim>, i: nat, j: nat)
    requires Distinct(rows) && AllRooted(rows) && i < |rows| && j < |rows|
    requires rows[i].retryIndex == rows[j].retryIndex && Lineage(rows, i)[0] == Lineage(rows, j)[0]
    ensures i == j
    decreases i
  {
    if rows[i].retryIndex > 0 {
      var p, q := ParentIndex(rows, i), ParentIndex(rows, j);
      assert Lineage(rows, i)[0] == Lineage(rows, p)[0] && Lineage(rows, j)[0] == Lineage(rows, q)[0];
      LineagesAreLinear(rows, p, q);
      AtMostOneChild(rows, p, i, j);
    }
  }

  /** The same for every reachable ledger. */
  lemma ReachableLineagesAreLinear(clock: nat, steps: seq<Step>, i: nat, j: nat)
    requires i < |Run(Db(clock, []), steps).claims| && j < |Run(Db(clock, []), steps).claims|
    ensures var rows := Run(Db(clock, []), steps).claims;
            && Distinct(rows) && AllRooted(rows)
            && (rows[i].retryIndex == rows[j].retryIndex && Lineage(rows, i)[0] == Lineage(rows, j)[0] ==> i == j)
  {
    EmptyIsWellFormed(clock);
    RunKeeps(Db(clock, []), steps);
    var rows := Run(Db(clock, []), steps).claims;
    assert AllRooted(rows);
    if rows[i].retryIndex == rows[j].retryIndex && Lineage(rows, i)[0] == Lineage(rows, j)[0] {
      LineagesAreLinear(rows, i, j);
    }
  }
}
