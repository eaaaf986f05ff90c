/**
  Creation, cleanup and retention of one cgroup leaf below a delegated root. Every kernel
  interaction may fail as the script of answers says; running out of answers is a failure
  too. Meanwhile other entries come and go; only the leaf's own random name is left alone.
  A failure other than `CleanupIncomplete` never leaves the leaf behind.
 */
module CgroupLeaf {
  import opened Common

  type Name = nat
  datatype Identity = Identity(device: nat, inode: nat)

  datatype Leaf = Leaf(name: Name, identity: Identity)

  datatype Reason =
    | UnsupportedPlatform | UnsupportedArchitecture | UnsupportedPageSize | OpenUnavailable
    | AbiIncompatible | InvalidInputs | UnsafeDelegate | NotCgroupV2 | DelegationUnverified
    | DelegateBusy | ControllersUnavailable | ControllerStateMismatch | CreationConflict
    | ConfigurationRejected | ReadbackMismatch | CgroupChanged | CleanupTimeout
    | CleanupIncomplete | ResourceExhausted | IoFailure
    | Unexpected

  datatype Outcome<+T> = Done(value: T) | Raises(why: Reason)

  /** The reasons kernel interactions and checks raise by themselves. */
  type Plain = r: Reason | r != CleanupIncomplete witness IoFailure

  /** How one kernel interaction goes: as asked, as asked but reported busy, or not at all. */
  datatype Answer = Fine | Busy | Trouble(why: Plain)

  // ---------------------------------------------------------------------------------------
  // The delegated root directory

  /** What a name denotes. */
  function At(entries: map<Name, Identity>, name: Name): Option<Identity> {
    if name in entries then Some(entries[name]) else None
  }

  /** Any other entries, and this one name as it was. */
  function Around(entries: map<Name, Identity>, name: Name, others: map<Name, Identity>): (r: map<Name, Identity>)
    ensures At(r, name) == At(entries, name)
  {
    if name in entries then others[name := entries[name]] else others - {name}
  }

  class Directory {
    const root: Identity
    /** The name no one else creates or removes. */
    const reserved: Name
    var entries: map<Name, Identity>
    var answers: seq<Answer>
    /** What else there is in the directory after each kernel interaction. */
    var drift: seq<map<Name, Identity>>
    var clocks: seq<int>
    /** The names this program has tried to create or remove. */
    ghost var touched: set<Name>
    /** How many interactions have not gone as asked or have come across other entries. */
    ghost var troubles: nat

    constructor (root: Identity, reserved: Name, entries: map<Name, Identity>, answers: seq<Answer>,
                 drift: seq<map<Name, Identity>>, clocks: seq<int>)
      ensures this.root == root && this.reserved == reserved && this.entries == entries && this.answers == answers
      ensures this.drift == drift && this.clocks == clocks && touched == {} && troubles == 0
    {
      this.root, this.reserved := root, reserved;
      this.entries, this.answers, this.drift, this.clocks := entries, answers, drift, clocks;
      touched, troubles := {}, 0;
    }

    /** The next scripted answer. */
    method Ask() returns (r: Answer)
      modifies this`entries, this`answers, this`drift, this`troubles
      ensures At(entries, reserved) == At(old(entries), reserved)
      ensures |answers| <= |old(answers)|
      ensures !r.Trouble? ==> |answers| < |old(answers)|
      ensures troubles == if r.Fine? then old(troubles) else old(troubles) + 1
    {
      if drift != [] {
        entries := Around(entries, reserved, drift[0]);
        drift := drift[1..];
      }
      r := Trouble(IoFailure);
      if answers != [] {
        r := answers[0];
        answers := answers[1..];
      }
      if !r.Fine? {
        troubles := troubles + 1;
      }
    }

    /** An operation that only reads or writes control files: `None` means it worked. */
    method Try() returns (r: Option<Plain>)
      modifies this`entries, this`answers, this`drift, this`troubles
      ensures At(entries, reserved) == At(old(entries), reserved)
      ensures |answers| <= |old(answers)|
      ensures r.None? ==> |answers| < |old(answers)|
      ensures troubles == if r.None? then old(troubles) else old(troubles) + 1
    {
      var a := Ask();
      return match a case Fine => None case Busy => Some(IoFailure) case Trouble(why) => Some(why);
    }

    /** Whether a listing shows any entry but the reserved one. */
    method Strangers() returns (r: bool)
      modifies this`troubles
      ensures r <==> entries.Keys - {reserved} != {}
      ensures troubles == if r then old(troubles) + 1 else old(troubles)
    {
      r := entries.Keys - {reserved} != {};
      if r {
        troubles := troubles + 1;
      }
    }

    method Now() returns (r: Option<int>)
      modifies this`clocks, this`troubles
      ensures old(clocks) != [] ==> r == Some(old(clocks)[0]) && clocks == old(clocks)[1..]
      ensures old(clocks) == [] ==> r == None && clocks == []
      ensures troubles == if r.None? then old(troubles) + 1 else old(troubles)
    {
      r := None;
      if clocks != [] {
        r := Some(clocks[0]);
        clocks := clocks[1..];
      } else {
        troubles := troubles + 1;
      }
    }

    method Mkdir(leaf: Leaf) returns (r: Option<Reason>)
      requires leaf.name == reserved
      modifies this`entries, this`answers, this`drift, this`touched, this`troubles
      ensures r.None? <==> reserved !in old(entries) && troubles == old(troubles)
      ensures At(entries, reserved) == if r.None? then Some(leaf.identity) else At(old(entries), reserved)
      ensures r.Some? ==> r.value != CleanupIncomplete
      ensures r == Some(CreationConflict) <==> reserved in old(entries)
      ensures troubles >= old(troubles) && touched == old(touched) + {leaf.name}
    {
      touched := touched + {leaf.name};
      if leaf.name in entries {
        return Some(CreationConflict);
      }
      var a := Ask();
      if !a.Fine? {
        return Some(if a.Trouble? && a.why in {DelegationUnverified, ResourceExhausted} then a.why else IoFailure);
      }
      entries := entries[leaf.name := leaf.identity];
      return None;
    }

    /** Removes whatever the name denotes. */
    method Rmdir(name: Name) returns (r: Answer)
      modifies this`entries, this`answers, this`drift, this`touched, this`troubles
      ensures name == reserved ==>
                && (r.Fine? <==> name in old(entries) && troubles == old(troubles))
                && At(entries, name) == if r.Fine? then None else At(old(entries), name)
      ensures name != reserved ==> At(entries, reserved) == At(old(entries), reserved)
      ensures troubles >= old(troubles) && touched == old(touched) + {name}
      ensures |answers| <= |old(answers)| && (r.Busy? ==> |answers| < |old(answers)|)
    {
      touched := touched + {name};
      r := Ask();
      if r.Fine? {
        if name in entries {
          entries := entries - {name};
        } else {
          r := Trouble(CgroupChanged);
        }
      }
    }

    /** What the name denotes now; the outer failure is an inspection error. */
    method Stat(name: Name) returns (r: Outcome<Option<Identity>>)
      modifies this`entries, this`answers, this`drift, this`troubles
      ensures At(entries, reserved) == At(old(entries), reserved)
      ensures |answers| <= |old(answers)|
      ensures r.Done? ==> r.value == At(entries, name)
      ensures troubles == if r.Done? then old(troubles) else old(troubles) + 1
    {
      var a := Ask();
      if !a.Fine? {
        return Raises(if a.Trouble? then a.why else IoFailure);
      }
      return Done(At(entries, name));
    }
  }

  /** The leaf this handle stands for is still there. */
  predicate Present(entries: map<Name, Identity>, leaf: Leaf) {
    At(entries, leaf.name) == Some(leaf.identity)
  }

  /** The leaf's name denotes what it did. */
  predicate Kept(before: map<Name, Identity>, after: map<Name, Identity>, leaf: Leaf) {
    At(after, leaf.name) == At(before, leaf.name)
  }

  /** Nothing happened to the leaf's name, or the identified leaf was removed. */
  predicate RemovesOnly(before: map<Name, Identity>, after: map<Name, Identity>, leaf: Leaf) {
    Kept(before, after, leaf) || (Present(before, leaf) && leaf.name !in after)
  }

  /** Nothing happened to the leaf's name, or the leaf was added. */
  predicate AddsOnly(before: map<Name, Identity>, after: map<Name, Identity>, leaf: Leaf) {
    Kept(before, after, leaf) || (leaf.name !in before && Present(after, leaf))
  }

  // ---------------------------------------------------------------------------------------
  // Creation

  /** The leaf sits on the device of the delegated root. */
  predicate SameDevice(d: Directory, leaf: Leaf) {
    leaf.identity.device == d.root.device
  }

  /** The leaf exists afterwards exactly when its name was free, it is on the root's device and
      every step worked; any other outcome but `CleanupIncomplete` has rolled back. */
  method CreateLeaf(d: Directory, leaf: Leaf) returns (r: Option<Reason>)
    requires leaf.name == d.reserved
    modifies d
    ensures r.None? <==> leaf.name !in old(d.entries) && SameDevice(d, leaf) && d.troubles == old(d.troubles)
    ensures r.None? ==> Present(d.entries, leaf)
    ensures d.troubles >= old(d.troubles) && d.clocks == old(d.clocks) && d.touched == old(d.touched) + {leaf.name}
    ensures r == Some(CreationConflict) && d.troubles == old(d.troubles) ==> leaf.name in old(d.entries)
    ensures r.Some? && r.value != CleanupIncomplete ==> Kept(old(d.entries), d.entries, leaf)
    ensures AddsOnly(old(d.entries), d.entries, leaf)
  {
    r := d.Mkdir(leaf);
    if r.Some? {
      return;
    }
    var openError := d.Try();
    if openError.None? && !SameDevice(d, leaf) {
      openError := Some(OpenUnavailable);
    }
    var closed: Option<Reason> := None;
    if openError.None? {
      var inspected := d.Try();
      if inspected.None? {
        return None;
      }
      openError := inspected;
      closed := d.Try();
    }
    var removed := d.Rmdir(leaf.name);
    if !removed.Fine? || closed.Some? {
      return Some(CleanupIncomplete);
    }
    return openError;
  }

  // ---------------------------------------------------------------------------------------
  // Cleanup

  /** Wait until empty, check the identity, remove, verify. */
  method RemoveEmptyLeaf(d: Directory, leaf: Leaf, deadline: int) returns (r: Option<Reason>)
    requires leaf.name == d.reserved
    modifies d
    ensures RemovesOnly(old(d.entries), d.entries, leaf) && d.touched <= old(d.touched) + {leaf.name}
    ensures r.None? ==> Present(old(d.entries), leaf) && leaf.name !in d.entries
    ensures r != Some(CleanupIncomplete)
    ensures d.troubles >= old(d.troubles)
    ensures d.troubles == old(d.troubles) ==> d.clocks == old(d.clocks) && (r.None? <==> Present(old(d.entries), leaf))
  {
    while true
      invariant Kept(old(d.entries), d.entries, leaf) && d.troubles >= old(d.troubles)
      invariant d.touched <= old(d.touched) + {leaf.name}
      invariant d.troubles == old(d.troubles) ==> d.clocks == old(d.clocks)
      decreases |d.answers|
    {
      var trouble := d.Try();
      if trouble.Some? {
        return trouble;
      }
      trouble := d.Try();
      if trouble.Some? {
        return trouble;
      }
      var strangers := d.Strangers();
      if strangers || !Present(d.entries, leaf) {
        return Some(CgroupChanged);
      }
      var removed := d.Rmdir(leaf.name);
      if removed.Fine? {
        break;
      }
      if removed.Trouble? {
        return Some(if removed.why == CgroupChanged then CgroupChanged else IoFailure);
      }
      var now := d.Now();
      if now.None? {
        return Some(Unexpected);
      }
      if now.value >= deadline {
        return Some(CleanupTimeout);
      }
      trouble := d.Try();
      if trouble.Some? {
        return trouble;
      }
    }
    var named := d.Stat(leaf.name);
    if named.Raises? {
      return Some(IoFailure);
    }
    if named.value.Some? {
      return Some(CgroupChanged);
    }
    return None;
  }

  function Milliseconds(ns: int): (ms: int)
    ensures ns <= ms * 1_000_000 < ns + 1_000_000
  {
    (ns + 999_999) / 1_000_000
  }

  /** The verdict on a removal that started and finished at these clock readings. */
  function ByClock(started: int, finished: int, timeout: nat): Outcome<nat> {
    if finished < started then Raises(IoFailure)
    else if Milliseconds(finished - started) > timeout then Raises(CleanupTimeout)
    else Done(Milliseconds(finished - started))
  }

  /** One bounded attempt; `progress` tells the caller whether the leaf is already gone. */
  method CleanupLeafOnce(d: Directory, leaf: Leaf, timeout: nat) returns (r: Outcome<nat>, progress: bool)
    requires leaf.name == d.reserved
    modifies d
    ensures RemovesOnly(old(d.entries), d.entries, leaf) && d.touched <= old(d.touched) + {leaf.name}
    ensures progress ==> leaf.name !in d.entries
    ensures r != Raises(CleanupIncomplete)
    ensures r.Done? ==> progress && Present(old(d.entries), leaf) && r.value <= timeout
    ensures d.troubles >= old(d.troubles)
    ensures d.troubles == old(d.troubles) ==> (progress <==> Present(old(d.entries), leaf))
    ensures d.troubles == old(d.troubles) && progress ==>
              |old(d.clocks)| >= 2 && r == ByClock(old(d.clocks)[0], old(d.clocks)[1], timeout)
  {
    hide Milliseconds, ByClock;
    progress := false;
    var started := d.Now();
    if started.None? {
      return Raises(Unexpected), false;
    }
    var deadline := started.value + timeout * 1_000_000;
    var openError := d.Try();
    if openError.Some? {
      return Raises(openError.value), false;
    }
    var read := d.Try();
    if read.Some? {
      var _ := d.Try();
      return Raises(read.value), false;
    }
    var killError := d.Try();
    if killError == Some(Unexpected) {
      var _ := d.Try();
      return Raises(Unexpected), false;
    }
    var waited := d.Try();
    if waited.Some? {
      var _ := d.Try();
      return Raises(waited.value), false;
    }
    var removed := RemoveEmptyLeaf(d, leaf, deadline);
    var closeError := d.Try();
    if removed.Some? {
      return Raises(removed.value), false;
    }
    progress := true;
    r := AuditRemoval(d, started.value, timeout, killError.Some? || closeError.Some?);
  }

  /** The verdict on an attempt that has removed the leaf. */
  method AuditRemoval(d: Directory, started: int, timeout: nat, incident: bool) returns (r: Outcome<nat>)
    modifies d`entries, d`answers, d`drift, d`clocks, d`troubles
    ensures At(d.entries, d.reserved) == At(old(d.entries), d.reserved)
    ensures r.Done? ==> r.value <= timeout && !incident
    ensures r != Raises(CleanupIncomplete) && d.troubles >= old(d.troubles)
    ensures d.troubles == old(d.troubles) && !incident ==>
              old(d.clocks) != [] && r == ByClock(started, old(d.clocks)[0], timeout)
  {
    hide Milliseconds;
    var audited := d.Try();
    if audited == Some(Unexpected) {
      return Raises(Unexpected);
    }
    var strangers := d.Strangers();
    if audited.Some? || strangers {
      return Raises(CgroupChanged);
    }
    var finished := d.Now();
    if finished.None? {
      return Raises(Unexpected);
    }
    var elapsed := finished.value - started;
    if elapsed < 0 {
      return Raises(IoFailure);
    }
    if Milliseconds(elapsed) > timeout {
      return Raises(CleanupTimeout);
    }
    if incident {
      return Raises(IoFailure);
    }
    return Done(Milliseconds(elapsed));
  }

  /** Removal by identity alone, when observing the leaf's events is impossible. */
  method FallbackRemoveEmptyLeaf(d: Directory, leaf: Leaf) returns (r: Option<Reason>)
    requires leaf.name == d.reserved
    modifies d
    ensures RemovesOnly(old(d.entries), d.entries, leaf) && d.touched <= old(d.touched) + {leaf.name}
    ensures r.None? ==> leaf.name !in d.entries
    ensures r.Some? ==> r.value == CleanupIncomplete
    ensures d.troubles >= old(d.troubles)
    ensures d.troubles == old(d.troubles) ==>
              (r.None? <==> leaf.name !in old(d.entries) || Present(old(d.entries), leaf))
  {
    var named := d.Stat(leaf.name);
    if named.Raises? {
      return Some(CleanupIncomplete);
    }
    if named.value.None? {
      return None;
    }
    var retained := d.Try();
    if retained.Some? || named.value.value != leaf.identity {
      return Some(CleanupIncomplete);
    }
    var removed := d.Rmdir(leaf.name);
    if !removed.Fine? {
      return Some(CleanupIncomplete);
    }
    named := d.Stat(leaf.name);
    if named.Raises? || named.value.Some? {
      return Some(CleanupIncomplete);
    }
    return None;
  }

  /** No silent leak, whatever the directory looked like: only the identified leaf is ever
      removed, and any failure but `CleanupIncomplete` means its name is gone. */
  method CleanupLeaf(d: Directory, leaf: Leaf, timeout: nat) returns (r: Outcome<nat>)
    requires leaf.name == d.reserved
    modifies d
    ensures RemovesOnly(old(d.entries), d.entries, leaf) && d.touched <= old(d.touched) + {leaf.name}
    ensures r.Done? ==> Present(old(d.entries), leaf) && r.value <= timeout
    ensures r.Done? || r.why != CleanupIncomplete ==> leaf.name !in d.entries
    ensures d.troubles >= old(d.troubles)
    ensures r == Raises(CleanupIncomplete) ==>
              d.troubles > old(d.troubles) || (leaf.name in old(d.entries) && !Present(old(d.entries), leaf))
    ensures d.troubles == old(d.troubles) && Present(old(d.entries), leaf) ==>
              |old(d.clocks)| >= 2 && r == ByClock(old(d.clocks)[0], old(d.clocks)[1], timeout)
  {
    var progress;
    r, progress := CleanupLeafOnce(d, leaf, timeout);
    if r.Done? || progress {
      return;
    }
    var fallback := FallbackRemoveEmptyLeaf(d, leaf);
    if fallback.Some? {
      return Raises(CleanupIncomplete);
    }
  }

  // ---------------------------------------------------------------------------------------
  // Retention

  /** The retained handle: cleanup runs at most once, and its first outcome is final. */
  class RetainedLeaf {
    const leaf: Leaf
    const bound: nat
    var finished: bool
    var terminalError: Option<Reason>
    var duration: Option<nat>
    var rootOpen: bool
    ghost var cleanups: nat
    ghost var closeAttempts: nat

    ghost predicate Valid()
      reads this
    {
      && (finished <==> cleanups == 1) && cleanups <= 1
      && closeAttempts == 2 * cleanups && (rootOpen <==> !finished)
      && (finished && terminalError.None? ==> duration.Some? && duration.value <= bound)
    }

    /** What every later valid call returns. */
    ghost function Replay(): Outcome<nat>
      requires Valid() && finished
      reads this
    {
      if terminalError.Some? then Raises(terminalError.value) else Done(duration.value)
    }

    constructor (leaf: Leaf, bound: nat)
      ensures Valid() && !finished && this.leaf == leaf && this.bound == bound
    {
      this.leaf, this.bound := leaf, bound;
      finished, terminalError, duration, rootOpen := false, None, None, true;
      cleanups, closeAttempts := 0, 0;
    }

    method Cleanup(d: Directory, timeout: nat) returns (r: Outcome<nat>)
      requires Valid() && timeout <= bound && leaf.name == d.reserved
      modifies this, d
      ensures Valid() && finished && r == Replay() && d.troubles >= old(d.troubles)
      ensures old(finished) ==> unchanged(this) && unchanged(d)
      ensures !old(finished) ==>
                && RemovesOnly(old(d.entries), d.entries, leaf) && d.touched <= old(d.touched) + {leaf.name}
                && (r.Done? ==> Present(old(d.entries), leaf) && r.value <= timeout)
                && (r.Done? || r.why != CleanupIncomplete ==> leaf.name !in d.entries)
                && (d.troubles == old(d.troubles) && Present(old(d.entries), leaf) ==>
                      |old(d.clocks)| >= 2 && r == ByClock(old(d.clocks)[0], old(d.clocks)[1], timeout))
    {
      if finished {
        return if terminalError.Some? then Raises(terminalError.value) else Done(duration.value);
      }
      finished := true;
      cleanups := cleanups + 1;
      var cleaned := CleanupLeaf(d, leaf, timeout);
      var operationError: Option<Reason> := None;
      if cleaned.Raises? {
        operationError := Some(cleaned.why);
      } else {
        var unchangedRoot := d.Try();
        if unchangedRoot.Some? {
          operationError := Some(unchangedRoot.value);
        }
      }
      var closeError: Option<Reason> := None;
      ghost var before := d.troubles;
      for i := 0 to 2
        invariant closeAttempts == old(closeAttempts) + i
        invariant finished && cleanups == old(cleanups) + 1 && rootOpen == old(rootOpen)
        invariant RemovesOnly(old(d.entries), d.entries, leaf) && d.touched <= old(d.touched) + {leaf.name}
        invariant operationError.None? || operationError.value != CleanupIncomplete ==> leaf.name !in d.entries
        invariant d.troubles >= before && (closeError.None? ==> d.troubles == before)
        invariant closeError.Some? ==> d.troubles > before
      {
        closeAttempts := closeAttempts + 1;
        var closed := d.Try();
        closeError := if closeError.Some? then closeError else closed;
      }
      rootOpen := false;
      if closeError.Some? && operationError.None? {
        operationError := Some(IoFailure);
      }
      duration := if cleaned.Done? then Some(cleaned.value) else None;
      terminalError := operationError;
      return if terminalError.Some? then Raises(terminalError.value) else Done(duration.value);
    }

    /** An out-of-range timeout does not consume the handle. */
    method CleanupWithTimeout(d: Directory, timeout: int) returns (r: Outcome<nat>)
      requires Valid() && leaf.name == d.reserved
      modifies this, d
      ensures Valid() && d.troubles >= old(d.troubles)
      ensures !(1 <= timeout <= bound) ==> r == Raises(InvalidInputs) && unchanged(this) && unchanged(d)
      ensures 1 <= timeout <= bound ==> finished && r == Replay()
      ensures old(finished) ==> unchanged(this) && unchanged(d)
      ensures 1 <= timeout <= bound && !old(finished) ==>
                && RemovesOnly(old(d.entries), d.entries, leaf) && d.touched <= old(d.touched) + {leaf.name}
                && (r.Done? ==> Present(old(d.entries), leaf) && r.value <= timeout)
                && (r.Done? || r.why != CleanupIncomplete ==> leaf.name !in d.entries)
                && (d.troubles == old(d.troubles) && Present(old(d.entries), leaf) ==>
                      |old(d.clocks)| >= 2 && r == ByClock(old(d.clocks)[0], old(d.clocks)[1], timeout))
    {
      if !(1 <= timeout <= bound) {
        return Raises(InvalidInputs);
      }
      r := Cleanup(d, timeout);
    }
  }

  /** Retaining a leaf: it succeeds exactly if the name is free, the device is right, nothing goes
      wrong and no other entry is met. On success the leaf is there and handed over; on any
      failure but `CleanupIncomplete` its name is as it was. */
  method Retain(d: Directory, leaf: Leaf, bound: nat) returns (r: Outcome<RetainedLeaf>)
    requires leaf.name == d.reserved
    modifies d
    ensures r.Done? <==> leaf.name !in old(d.entries) && SameDevice(d, leaf) && d.troubles == old(d.troubles)
    ensures d.troubles >= old(d.troubles) && (r.Done? ==> d.clocks == old(d.clocks))
    ensures r.Done? ==>
              && Present(d.entries, leaf)
              && fresh(r.value) && r.value.Valid() && !r.value.finished
              && r.value.leaf == leaf && r.value.bound == bound
    ensures r.Raises? && r.why != CleanupIncomplete ==> Kept(old(d.entries), d.entries, leaf)
    ensures AddsOnly(old(d.entries), d.entries, leaf) && d.touched <= old(d.touched) + {leaf.name}
  {
    var checked := d.Try();
    if checked.Some? {
      return Raises(checked.value);
    }
    var strangers := d.Strangers();
    if strangers || leaf.name in d.entries {
      return Raises(DelegateBusy);
    }
    var created := CreateLeaf(d, leaf);
    if created.Some? {
      return Raises(created.value);
    }
    var failed := d.Try();
    if failed.None? {
      failed := d.Try();
    }
    if failed.None? {
      var handle := new RetainedLeaf(leaf, bound);
      return Done(handle);
    }
    var cleaned := CleanupLeaf(d, leaf, bound);
    if cleaned.Raises? {
      return Raises(cleaned.why);
    }
    var stillSame := d.Try();
    if stillSame.Some? {
      return Raises(stillSame.value);
    }
    return Raises(failed.value);
  }

  // ---------------------------------------------------------------------------------------
  // Any sequence of calls

  predicate ValidTimeout(timeout: int, bound: nat) {
    1 <= timeout <= bound
  }

  predicate FirstValid(timeouts: seq<int>, i: int, bound: nat) {
    && 0 <= i < |timeouts| && ValidTimeout(timeouts[i], bound)
    && forall j :: 0 <= j < i ==> !ValidTimeout(timeouts[j], bound)
  }

  /** Over any sequence of calls: invalid ones are refused, every valid one gets the outcome of
      the first valid one, cleanup ran once if there was one, and each of the two owned
      descriptors got exactly one close attempt. */
  method CallRepeatedly(handle: RetainedLeaf, d: Directory, timeouts: seq<int>) returns (results: seq<Outcome<nat>>)
    requires handle.Valid() && !handle.finished && handle.leaf.name == d.reserved
    modifies handle, d
    ensures handle.Valid() && |results| == |timeouts|
    ensures forall i :: 0 <= i < |timeouts| && !ValidTimeout(timeouts[i], handle.bound) ==>
              results[i] == Raises(InvalidInputs)
    ensures handle.finished <==> exists i :: 0 <= i < |timeouts| && ValidTimeout(timeouts[i], handle.bound)
    ensures forall i :: 0 <= i < |timeouts| && ValidTimeout(timeouts[i], handle.bound) ==>
              handle.finished && results[i] == handle.Replay()
    ensures forall i :: FirstValid(timeouts, i, handle.bound) && results[i].Done? ==> results[i].value <= timeouts[i]
    ensures handle.cleanups <= 1 && handle.closeAttempts == 2 * handle.cleanups
    ensures RemovesOnly(old(d.entries), d.entries, handle.leaf) && d.touched <= old(d.touched) + {handle.leaf.name}
    ensures handle.finished && (handle.Replay().Done? || handle.Replay().why != CleanupIncomplete) ==>
              handle.leaf.name !in d.entries
  {
    results := [];
    for i := 0 to |timeouts|
      invariant handle.Valid() && |results| == i
      invariant forall k :: 0 <= k < i && !ValidTimeout(timeouts[k], handle.bound) ==>
                  results[k] == Raises(InvalidInputs)
      invariant handle.finished <==> exists k :: 0 <= k < i && ValidTimeout(timeouts[k], handle.bound)
      invariant forall k :: 0 <= k < i && ValidTimeout(timeouts[k], handle.bound) ==>
                  handle.finished && results[k] == handle.Replay()
      invariant forall k :: k < i && FirstValid(timeouts, k, handle.bound) && results[k].Done? ==>
                  results[k].value <= timeouts[k]
      invariant RemovesOnly(old(d.entries), d.entries, handle.leaf)
      invariant d.touched <= old(d.touched) + {handle.leaf.name}
      invariant !handle.finished ==> d.entries == old(d.entries)
      invariant handle.finished && (handle.Replay().Done? || handle.Replay().why != CleanupIncomplete) ==>
                  handle.leaf.name !in d.entries
    {
      var r := handle.CleanupWithTimeout(d, timeouts[i]);
      results := results + [r];
    }
  }
}
