/**
  The ELF64 static-PIE validator and the marker scan that runs after it. The validator's loops
  are shown to accept exactly a declarative shape, and that shape to be what a loader needs:
  in-bounds, disjoint segments, no byte both writable and executable, one entry segment.
 */
module Elf {
  import opened Common

  const HEADER_SIZE := 64
  const PROGRAM_HEADER_SIZE := 56
  const MAX_PROGRAM_HEADERS := 128
  const UINT64_MAX := 0xFFFF_FFFF_FFFF_FFFF

  const ET_DYN := 3
  const EM_X86_64 := 62

  const PT_NULL := 0
  const PT_LOAD := 1
  const PT_DYNAMIC := 2
  const PT_INTERP := 3
  const PT_GNU_STACK := 0x6474_E551
  const PT_GNU_RELRO := 0x6474_E552

  const DT_NULL := 0
  const DT_NEEDED := 1
  const DT_RPATH := 15
  const DT_RUNPATH := 29
  const DT_FLAGS := 30
  const DT_FLAGS_1 := 0x6FFF_FFFB

  type Bytes = seq<Byte>

  // ---------------------------------------------------------------------------------------
  // Reading fields

  /** The little-endian integer of `n` bytes at `offset`. */
  function Le(content: Bytes, offset: nat, n: nat): (v: nat)
    requires offset + n <= |content|
    decreases n
  {
    if n == 0 then 0 else content[offset] + 256 * Le(content, offset + 1, n - 1)
  }

  predicate Executable(flags: nat) {
    flags % 2 == 1
  }

  predicate Writable(flags: nat) {
    flags / 2 % 2 == 1
  }

  predicate Readable(flags: nat) {
    flags / 4 % 2 == 1
  }

  /** Permission bits of `a` are all among those of `b`. */
  predicate Within(a: nat, b: nat) {
    && (Executable(a) ==> Executable(b)) && (Writable(a) ==> Writable(b)) && (Readable(a) ==> Readable(b))
  }

  predicate PowerOfTwo(n: nat) {
    n == 1 || (n > 1 && n % 2 == 0 && PowerOfTwo(n / 2))
  }

  datatype Segment = Segment(
    kind: nat, flags: nat, offset: nat, address: nat, fileSize: nat, memorySize: nat, alignment: nat)
  {
    function FileEnd(): nat { offset + fileSize }
    function VirtualEnd(): nat { address + memorySize }
  }

  predicate TableFits(content: Bytes, count: nat) {
    HEADER_SIZE + count * PROGRAM_HEADER_SIZE <= |content|
  }

  function SegmentAt(content: Bytes, i: nat): Segment
    requires TableFits(content, i + 1)
  {
    var at := HEADER_SIZE + i * PROGRAM_HEADER_SIZE;
    Segment(Le(content, at, 4), Le(content, at + 4, 4), Le(content, at + 8, 8), Le(content, at + 16, 8),
            Le(content, at + 32, 8), Le(content, at + 40, 8), Le(content, at + 48, 8))
  }

  function Count(content: Bytes): nat
    requires |content| >= HEADER_SIZE
  {
    Le(content, 56, 2)
  }

  function Entry(content: Bytes): nat
    requires |content| >= HEADER_SIZE
  {
    Le(content, 24, 8)
  }

  // ---------------------------------------------------------------------------------------
  // The shape

  predicate IdentOk(content: Bytes)
    requires |content| >= HEADER_SIZE
  {
    && content[..4] == [0x7F, 0x45, 0x4C, 0x46]
    && content[4] == 2 && content[5] == 1 && content[6] == 1 && content[7] == 3 && content[8] == 0
    && (forall i :: 9 <= i < 16 ==> content[i] == 0)
  }

  predicate HeaderOk(content: Bytes)
    requires |content| >= HEADER_SIZE
  {
    && Le(content, 16, 2) == ET_DYN && Le(content, 18, 2) == EM_X86_64 && Le(content, 20, 4) == 1
    && Entry(content) != 0
    && Le(content, 48, 4) == 0 && Le(content, 52, 2) == HEADER_SIZE && Le(content, 32, 8) == HEADER_SIZE
    && Le(content, 54, 2) == PROGRAM_HEADER_SIZE
    && 1 <= Count(content) <= MAX_PROGRAM_HEADERS && TableFits(content, Count(content))
  }

  /** Checks on one program header that do not depend on the others. */
  predicate SegmentOk(size: nat, s: Segment) {
    && (s.kind != PT_NULL ==>
          && s.flags < 8 && s.fileSize <= s.memorySize
          && s.offset <= size && s.fileSize <= size - s.offset
          && s.memorySize <= UINT64_MAX - s.address
          && (s.alignment > 1 ==> PowerOfTwo(s.alignment) && s.offset % s.alignment == s.address % s.alignment))
    && s.kind != PT_INTERP
    && (s.kind == PT_LOAD ==>
          Readable(s.flags) && !(Writable(s.flags) && Executable(s.flags)) && s.fileSize > 0 && s.memorySize > 0)
    && (s.kind == PT_DYNAMIC ==> s.flags == 6 && s.fileSize > 0 && s.fileSize == s.memorySize && s.fileSize % 16 == 0)
    && (s.kind == PT_GNU_STACK ==> s.flags == 6)
    && (s.kind == PT_GNU_RELRO ==> s.flags == 4 && s.fileSize > 0 && s.fileSize == s.memorySize)
  }

  /** The first `n` headers of one kind, in table order. */
  function Of(content: Bytes, n: nat, kind: nat): (r: seq<Segment>)
    requires TableFits(content, n)
    ensures forall s :: s in r ==> s.kind == kind
  {
    if n == 0 then []
    else if SegmentAt(content, n - 1).kind == kind then Of(content, n - 1, kind) + [SegmentAt(content, n - 1)]
    else Of(content, n - 1, kind)
  }

  predicate Before(a: Segment, b: Segment) {
    a.FileEnd() <= b.offset && a.VirtualEnd() <= b.address
  }

  /** Every pair in order, not only neighbours. */
  predicate Ordered(loads: seq<Segment>) {
    forall i, j :: 0 <= i < j < |loads| ==> Before(loads[i], loads[j])
  }

  predicate EntersAt(load: Segment, entry: nat) {
    Executable(load.flags) && load.address <= entry < load.address + load.fileSize
  }

  predicate Maps(load: Segment, s: Segment) {
    && load.offset <= s.offset && s.FileEnd() <= load.FileEnd()
    && load.address <= s.address && s.VirtualEnd() <= load.VirtualEnd()
    && s.offset - load.offset == s.address - load.address
    && Within(s.flags, load.flags)
  }

  predicate CoversTable(load: Segment, count: nat) {
    load.offset == 0 && load.FileEnd() >= HEADER_SIZE + count * PROGRAM_HEADER_SIZE
  }

  // Dynamic table entries are sixteen bytes: tag, then value.

  function Tag(content: Bytes, dynamic: Segment, k: nat): nat
    requires dynamic.offset + 16 * k + 16 <= |content|
  {
    Le(content, dynamic.offset + 16 * k, 8)
  }

  function Value(content: Bytes, dynamic: Segment, k: nat): nat
    requires dynamic.offset + 16 * k + 16 <= |content|
  {
    Le(content, dynamic.offset + 16 * k + 8, 8)
  }

  predicate BindNow(value: nat) {
    value / 8 % 2 == 1
  }

  predicate NowAndPie(value: nat) {
    value % 2 == 1 && value / 0x0800_0000 % 2 == 1
  }

  predicate Harmless(tag: nat) {
    tag != DT_NULL && tag != DT_NEEDED && tag != DT_RPATH && tag != DT_RUNPATH
  }

  /** Entry `j` is the only one before `n` with its tag. */
  predicate Only(content: Bytes, dynamic: Segment, j: nat, n: nat)
    requires dynamic.offset + 16 * n <= |content| && j < n
  {
    forall k :: 0 <= k < n && k != j ==> Tag(content, dynamic, k) != Tag(content, dynamic, j)
  }

  predicate HasBindNow(content: Bytes, dynamic: Segment, n: nat)
    requires dynamic.offset + 16 * n <= |content|
  {
    exists j :: 0 <= j < n && Tag(content, dynamic, j) == DT_FLAGS && BindNow(Value(content, dynamic, j))
                && Only(content, dynamic, j, n)
  }

  predicate HasNowAndPie(content: Bytes, dynamic: Segment, n: nat)
    requires dynamic.offset + 16 * n <= |content|
  {
    exists j :: 0 <= j < n && Tag(content, dynamic, j) == DT_FLAGS_1 && NowAndPie(Value(content, dynamic, j))
                && Only(content, dynamic, j, n)
  }

  /** The table ends at entry `n`. */
  predicate EndsAt(content: Bytes, dynamic: Segment, n: nat) {
    && dynamic.offset + 16 * n + 16 <= |content|
    && Tag(content, dynamic, n) == DT_NULL
    && (forall k :: 0 <= k < n ==> Harmless(Tag(content, dynamic, k)))
    && HasBindNow(content, dynamic, n) && HasNowAndPie(content, dynamic, n)
  }

  predicate DynamicOk(content: Bytes, dynamic: Segment) {
    exists n :: 0 <= n < dynamic.fileSize / 16 && EndsAt(content, dynamic, n)
  }

  predicate SegmentsOk(content: Bytes, n: nat)
    requires TableFits(content, n)
  {
    && (forall i :: 0 <= i < n ==> SegmentOk(|content|, SegmentAt(content, i)))
    && Ordered(Of(content, n, PT_LOAD))
    && |Of(content, n, PT_DYNAMIC)| <= 1 && |Of(content, n, PT_GNU_STACK)| <= 1 && |Of(content, n, PT_GNU_RELRO)| <= 1
  }

  predicate LayoutOk(content: Bytes, n: nat)
    requires TableFits(content, n) && |content| >= HEADER_SIZE
  {
    var loads, dynamics, relros := Of(content, n, PT_LOAD), Of(content, n, PT_DYNAMIC), Of(content, n, PT_GNU_RELRO);
    && loads != [] && |dynamics| == 1 && |Of(content, n, PT_GNU_STACK)| == 1 && |relros| == 1
    && (exists i :: 0 <= i < |loads| && CoversTable(loads[i], n))
    && (exists i :: 0 <= i < |loads| && EntersAt(loads[i], Entry(content)))
    && (exists i :: 0 <= i < |loads| && Maps(loads[i], dynamics[0]))
    && (exists i :: 0 <= i < |loads| && Maps(loads[i], relros[0]))
    && DynamicOk(content, dynamics[0])
  }

  predicate StaticPie(content: Bytes) {
    && |content| >= HEADER_SIZE && IdentOk(content) && HeaderOk(content)
    && SegmentsOk(content, Count(content)) && LayoutOk(content, Count(content))
  }

  // ---------------------------------------------------------------------------------------
  // The validator

  /** Only the newest load is compared with its predecessor. */
  lemma AdjacentSuffices(loads: seq<Segment>, s: Segment)
    requires Ordered(loads)
    ensures Ordered(loads + [s]) <==> loads == [] || Before(loads[|loads| - 1], s)
  {
    var all := loads + [s];
    if loads != [] {
      var last := loads[|loads| - 1];
      if Ordered(all) {
        assert Before(all[|loads| - 1], all[|loads|]);
      }
      if Before(last, s) {
        forall i, j | 0 <= i < j < |all| ensures Before(all[i], all[j]) {
          if j == |loads| && i < |loads| - 1 {
            assert Before(loads[i], last);
          }
        }
      }
    }
  }

  /** What is wrong after `n` headers stays wrong. */
  lemma {:induction false} BadStaysBad(content: Bytes, n: nat, total: nat)
    requires n <= total && TableFits(content, total)
    requires !SegmentsOk(content, n)
    ensures !SegmentsOk(content, total)
    decreases total - n
  {
    hide SegmentAt, SegmentOk, Ordered, Of;
    if n < total {
      if SegmentsOk(content, n + 1) {
        OneFewer(content, n);
      }
      BadStaysBad(content, n + 1, total);
    }
  }

  lemma OneFewer(content: Bytes, n: nat)
    requires TableFits(content, n + 1) && SegmentsOk(content, n + 1)
    ensures SegmentsOk(content, n)
  {
    hide SegmentOk;
    var loads, more := Of(content, n, PT_LOAD), Of(content, n + 1, PT_LOAD);
    forall i, j | 0 <= i < j < |loads| ensures Before(loads[i], loads[j]) {
      assert more[i] == loads[i] && more[j] == loads[j];
    }
  }

  method ValidateSegments(content: Bytes, count: nat)
    returns (ok: bool, loads: seq<Segment>, dynamic: seq<Segment>, stack: seq<Segment>, relro: seq<Segment>)
    requires TableFits(content, count)
    ensures ok <==> SegmentsOk(content, count)
    ensures ok ==> && loads == Of(content, count, PT_LOAD) && dynamic == Of(content, count, PT_DYNAMIC)
                   && stack == Of(content, count, PT_GNU_STACK) && relro == Of(content, count, PT_GNU_RELRO)
  {
    hide SegmentOk, SegmentAt, Before;
    loads, dynamic, stack, relro := [], [], [], [];
    for index := 0 to count
      invariant SegmentsOk(content, index)
      invariant loads == Of(content, index, PT_LOAD) && dynamic == Of(content, index, PT_DYNAMIC)
      invariant stack == Of(content, index, PT_GNU_STACK) && relro == Of(content, index, PT_GNU_RELRO)
    {
      var s := SegmentAt(content, index);
      if !SegmentOk(|content|, s) {
        BadStaysBad(content, index + 1, count);
        return false, loads, dynamic, stack, relro;
      }
      AdjacentSuffices(loads, s);
      if || (s.kind == PT_LOAD && loads != [] && !Before(loads[|loads| - 1], s))
         || (s.kind == PT_DYNAMIC && dynamic != []) || (s.kind == PT_GNU_STACK && stack != [])
         || (s.kind == PT_GNU_RELRO && relro != [])
      {
        BadStaysBad(content, index + 1, count);
        return false, loads, dynamic, stack, relro;
      }
      if s.kind == PT_LOAD {
        loads := loads + [s];
      } else if s.kind == PT_DYNAMIC {
        dynamic := dynamic + [s];
      } else if s.kind == PT_GNU_STACK {
        stack := stack + [s];
      } else if s.kind == PT_GNU_RELRO {
        relro := relro + [s];
      }
    }
    ok := true;
  }

  // The dynamic table scan, entry by entry.

  /** Among the first `n` entries none stops the scan. */
  predicate CleanUpTo(content: Bytes, dynamic: Segment, n: nat)
    requires dynamic.offset + 16 * n <= |content|
  {
    forall k :: 0 <= k < n ==> Harmless(Tag(content, dynamic, k))
  }

  method ScanDynamic(content: Bytes, dynamic: Segment) returns (ok: bool)
    requires dynamic.FileEnd() <= |content| && dynamic.fileSize % 16 == 0
    ensures ok <==> DynamicOk(content, dynamic)
  {
    hide Le, BindNow, NowAndPie, Tag, Value, HasBindNow, HasNowAndPie;
    var bind: Option<nat>, pie: Option<nat> := None, None;
    var n := 0;
    while n < dynamic.fileSize / 16
      invariant n <= dynamic.fileSize / 16
      invariant CleanUpTo(content, dynamic, n)
      invariant bind.Some? ==> bind.value < n && Tag(content, dynamic, bind.value) == DT_FLAGS
                               && BindNow(Value(content, dynamic, bind.value)) && Only(content, dynamic, bind.value, n)
      invariant bind.None? ==> forall k :: 0 <= k < n ==> Tag(content, dynamic, k) != DT_FLAGS
      invariant pie.Some? ==> pie.value < n && Tag(content, dynamic, pie.value) == DT_FLAGS_1
                              && NowAndPie(Value(content, dynamic, pie.value)) && Only(content, dynamic, pie.value, n)
      invariant pie.None? ==> forall k :: 0 <= k < n ==> Tag(content, dynamic, k) != DT_FLAGS_1
    {
      var tag, value := Tag(content, dynamic, n), Value(content, dynamic, n);
      if tag in {DT_NEEDED, DT_RPATH, DT_RUNPATH} {
        NoEndPast(content, dynamic, n);
        return false;
      }
      if tag == DT_FLAGS {
        if bind.Some? || !BindNow(value) {
          NotOnlyFlags(content, dynamic, n);
          return false;
        }
        bind := Some(n);
      } else if tag == DT_FLAGS_1 {
        if pie.Some? || !NowAndPie(value) {
          NotOnlyFlags1(content, dynamic, n);
          return false;
        }
        pie := Some(n);
      }
      if tag == DT_NULL {
        ok := bind.Some? && pie.Some?;
        if ok {
          FoundBoth(content, dynamic, n, bind.value, pie.value);
        } else {
          EndIsFirstNull(content, dynamic, n);
          MissingFlag(content, dynamic, n);
        }
        return;
      }
      n := n + 1;
    }
    return false;
  }

  lemma FoundBoth(content: Bytes, dynamic: Segment, n: nat, bind: nat, pie: nat)
    requires dynamic.offset + 16 * n + 16 <= |content| && bind < n && pie < n
    requires CleanUpTo(content, dynamic, n) && Tag(content, dynamic, n) == DT_NULL
    requires Tag(content, dynamic, bind) == DT_FLAGS && BindNow(Value(content, dynamic, bind))
    requires Tag(content, dynamic, pie) == DT_FLAGS_1 && NowAndPie(Value(content, dynamic, pie))
    requires Only(content, dynamic, bind, n) && Only(content, dynamic, pie, n)
    ensures EndsAt(content, dynamic, n)
  {
  }

  /** The flags seen so far are what the two conditions ask for. */
  lemma MissingFlag(content: Bytes, dynamic: Segment, n: nat)
    requires dynamic.offset + 16 * n <= |content|
    ensures (forall k :: 0 <= k < n ==> Tag(content, dynamic, k) != DT_FLAGS) ==> !HasBindNow(content, dynamic, n)
    ensures (forall k :: 0 <= k < n ==> Tag(content, dynamic, k) != DT_FLAGS_1) ==> !HasNowAndPie(content, dynamic, n)
  {
  }

  /** A table cannot end at or past an entry that rejects it. */
  lemma NoEndPast(content: Bytes, dynamic: Segment, n: nat)
    requires dynamic.FileEnd() <= |content| && n < dynamic.fileSize / 16 && CleanUpTo(content, dynamic, n)
    requires Tag(content, dynamic, n) in {DT_NEEDED, DT_RPATH, DT_RUNPATH}
    ensures !DynamicOk(content, dynamic)
  {
  }

  /** A second or ill-set flags entry rules out every later end. */
  lemma NotOnlyFlags(content: Bytes, dynamic: Segment, n: nat)
    requires dynamic.FileEnd() <= |content| && n < dynamic.fileSize / 16 && CleanUpTo(content, dynamic, n)
    requires Tag(content, dynamic, n) == DT_FLAGS
    requires !BindNow(Value(content, dynamic, n))
             || exists j :: 0 <= j < n && Tag(content, dynamic, j) == DT_FLAGS
    ensures !DynamicOk(content, dynamic)
  {
  }

  lemma NotOnlyFlags1(content: Bytes, dynamic: Segment, n: nat)
    requires dynamic.FileEnd() <= |content| && n < dynamic.fileSize / 16 && CleanUpTo(content, dynamic, n)
    requires Tag(content, dynamic, n) == DT_FLAGS_1
    requires !NowAndPie(Value(content, dynamic, n))
             || exists j :: 0 <= j < n && Tag(content, dynamic, j) == DT_FLAGS_1
    ensures !DynamicOk(content, dynamic)
  {
  }

  lemma EndIsFirstNull(content: Bytes, dynamic: Segment, n: nat)
    requires dynamic.FileEnd() <= |content| && n < dynamic.fileSize / 16 && CleanUpTo(content, dynamic, n)
    requires Tag(content, dynamic, n) == DT_NULL
    ensures DynamicOk(content, dynamic) ==> EndsAt(content, dynamic, n)
  {
  }

  /** The whole validator: it accepts exactly the declared shape. */
  method ValidateStaticPie(content: Bytes) returns (ok: bool)
    ensures ok <==> StaticPie(content)
  {
    hide SegmentOk, Ordered, DynamicOk, Maps, Of;
    if |content| < HEADER_SIZE {
      return false;
    }
    if !IdentOk(content) {
      return false;
    }
    if !HeaderOk(content) {
      return false;
    }
    var count := Count(content);
    var good, loads, dynamic, stack, relro := ValidateSegments(content, count);
    if !good {
      return false;
    }
    if loads == [] || dynamic == [] || stack == [] || relro == [] {
      return false;
    }
    if !exists i :: 0 <= i < |loads| && CoversTable(loads[i], count) {
      return false;
    }
    if !exists i :: 0 <= i < |loads| && EntersAt(loads[i], Entry(content)) {
      return false;
    }
    if !exists i :: 0 <= i < |loads| && Maps(loads[i], dynamic[0]) {
      return false;
    }
    if !exists i :: 0 <= i < |loads| && Maps(loads[i], relro[0]) {
      return false;
    }
    DynamicFits(content, count);
    ok := ScanDynamic(content, dynamic[0]);
  }

  /** A header of some kind is one of the headers that passed. */
  lemma {:induction false} OfIsFromTable(content: Bytes, n: nat, kind: nat, k: nat)
    requires TableFits(content, n) && k < |Of(content, n, kind)|
    ensures exists i :: 0 <= i < n && Of(content, n, kind)[k] == SegmentAt(content, i)
  {
    hide SegmentAt;
    if k < |Of(content, n - 1, kind)| {
      OfIsFromTable(content, n - 1, kind, k);
      assert Of(content, n, kind)[k] == Of(content, n - 1, kind)[k];
    } else {
      assert Of(content, n, kind)[k] == SegmentAt(content, n - 1);
    }
  }

  lemma DynamicFits(content: Bytes, n: nat)
    requires TableFits(content, n) && SegmentsOk(content, n) && Of(content, n, PT_DYNAMIC) != []
    ensures var d := Of(content, n, PT_DYNAMIC)[0]; d.FileEnd() <= |content| && d.fileSize % 16 == 0
  {
    OfIsFromTable(content, n, PT_DYNAMIC, 0);
  }

  // ---------------------------------------------------------------------------------------
  // What acceptance means for a loader

  /** Header `i` of a kind sits in the filtered list at the number of such headers before it. */
  lemma {:induction false} OfAt(content: Bytes, n: nat, i: nat)
    requires i < n && TableFits(content, n)
    ensures var kind := SegmentAt(content, i).kind;
            |Of(content, i, kind)| < |Of(content, n, kind)|
            && Of(content, n, kind)[|Of(content, i, kind)|] == SegmentAt(content, i)
  {
    hide SegmentAt;
    var kind := SegmentAt(content, i).kind;
    if i < n - 1 {
      OfAt(content, n - 1, i);
    }
  }

  predicate Loaded(content: Bytes, i: nat)
    requires |content| >= HEADER_SIZE && TableFits(content, Count(content))
  {
    i < Count(content) && SegmentAt(content, i).kind == PT_LOAD
  }

  /** Any two loadable headers, adjacent or not: the earlier one ends before the later begins,
      in the file and in memory. */
  lemma LoadsAreDisjoint(content: Bytes, i: nat, j: nat)
    requires StaticPie(content) && Loaded(content, i) && Loaded(content, j) && i < j
    ensures Before(SegmentAt(content, i), SegmentAt(content, j))
  {
    hide SegmentOk, LayoutOk, SegmentAt;
    var n := Count(content);
    OfAt(content, n, i);
    OfAt(content, n, j);
    OfAt(content, j, i);
    var loads := Of(content, n, PT_LOAD);
    assert |Of(content, i, PT_LOAD)| < |Of(content, j, PT_LOAD)|;
    assert Before(loads[|Of(content, i, PT_LOAD)|], loads[|Of(content, j, PT_LOAD)|]);
  }

  predicate Occupies(s: Segment, address: nat) {
    s.address <= address < s.VirtualEnd()
  }

  /** Every loadable range is inside the file and below the top of the address space, and no
      address is occupied by two of them. */
  lemma LoadsAreInBounds(content: Bytes, i: nat)
    requires StaticPie(content) && Loaded(content, i)
    ensures var s := SegmentAt(content, i);
            && 0 < s.fileSize <= s.memorySize && s.FileEnd() <= |content| && s.VirtualEnd() <= UINT64_MAX
    ensures forall j, address ::
              Loaded(content, j) && Occupies(SegmentAt(content, i), address) && Occupies(SegmentAt(content, j), address)
              ==> i == j
  {
    hide LayoutOk, Of, PowerOfTwo, SegmentAt;
    assert SegmentOk(|content|, SegmentAt(content, i));
    forall j, address | Loaded(content, j) && j != i && Occupies(SegmentAt(content, i), address)
      ensures !Occupies(SegmentAt(content, j), address)
    {
      if i < j {
        LoadsAreDisjoint(content, i, j);
      } else {
        LoadsAreDisjoint(content, j, i);
      }
    }
  }

  /** No address is writable through one segment and executable through the same or another. */
  lemma NoAddressIsWritableAndExecutable(content: Bytes, i: nat, j: nat, address: nat)
    requires StaticPie(content) && Loaded(content, i) && Loaded(content, j)
    requires Occupies(SegmentAt(content, i), address) && Occupies(SegmentAt(content, j), address)
    ensures !(Writable(SegmentAt(content, i).flags) && Executable(SegmentAt(content, j).flags))
  {
    hide LayoutOk, Of, PowerOfTwo, SegmentAt;
    LoadsAreInBounds(content, i);
    assert SegmentOk(|content|, SegmentAt(content, i));
  }

  /** Exactly one loadable segment contains the entry point among its file-backed bytes, and it
      is executable and not writable. */
  lemma EntryIsInOneSegment(content: Bytes) returns (i: nat)
    requires StaticPie(content)
    ensures Loaded(content, i) && EntersAt(SegmentAt(content, i), Entry(content))
    ensures !Writable(SegmentAt(content, i).flags)
    ensures forall j :: Loaded(content, j) && Occupies(SegmentAt(content, j), Entry(content)) ==> j == i
  {
    hide PowerOfTwo, SegmentAt, DynamicOk, Maps;
    var n := Count(content);
    var loads := Of(content, n, PT_LOAD);
    var k :| 0 <= k < |loads| && EntersAt(loads[k], Entry(content));
    OfIsFromTable(content, n, PT_LOAD, k);
    i :| 0 <= i < n && loads[k] == SegmentAt(content, i);
    LoadsAreInBounds(content, i);
    assert SegmentOk(|content|, SegmentAt(content, i)) && Occupies(SegmentAt(content, i), Entry(content));
  }

  // ---------------------------------------------------------------------------------------
  // The marker scan

  predicate OccursAt(content: Bytes, marker: Bytes, k: int) {
    0 <= k && k + |marker| <= |content| && content[k..k + |marker|] == marker
  }

  /** First occurrence at or after `from`. */
  method Find(content: Bytes, marker: Bytes, from: nat) returns (r: Option<nat>)
    ensures r.Some? ==> from <= r.value && OccursAt(content, marker, r.value)
                        && forall k :: from <= k < r.value ==> !OccursAt(content, marker, k)
    ensures r.None? ==> forall k :: from <= k ==> !OccursAt(content, marker, k)
  {
    var k := from;
    while k + |marker| <= |content|
      invariant from <= k
      invariant forall i :: from <= i < k ==> !OccursAt(content, marker, i)
    {
      if content[k..k + |marker|] == marker {
        return Some(k);
      }
      k := k + 1;
    }
    return None;
  }

  ghost predicate OccursOnlyAt(content: Bytes, marker: Bytes, k: nat) {
    OccursAt(content, marker, k) && forall j :: OccursAt(content, marker, j) ==> j == k
  }

  /** The scan's own reading of the program header table: the file ranges of loadable segments
      among the first `n` headers, or nothing when a field is out of reach. */
  function Ranges(content: Bytes, start: nat, stride: nat, n: nat): Option<seq<(nat, nat)>> {
    if n == 0 then Some([])
    else
      var rest := Ranges(content, start, stride, n - 1);
      var at := HeaderAt(start, stride, n - 1);
      if rest.None? || at + 40 > |content| then None
      else if Le(content, at, 4) != PT_LOAD then rest
      else Some(rest.value + [(Le(content, at + 8, 8), Le(content, at + 8, 8) + Le(content, at + 32, 8))])
  }

  function HeaderAt(start: nat, stride: nat, index: nat): nat {
    start + index * stride
  }

  function ScannedRanges(content: Bytes): Option<seq<(nat, nat)>> {
    if |content| < 58 then None else Ranges(content, Le(content, 32, 8), Le(content, 54, 2), Le(content, 56, 2))
  }

  predicate LoadedAt(ranges: seq<(nat, nat)>, k: nat, size: nat) {
    exists i :: 0 <= i < |ranges| && ranges[i].0 <= k && k + size <= ranges[i].1
  }

  /** Each marker, with its terminating zero, occurs exactly once and inside a loaded range. */
  ghost predicate Embedded(content: Bytes, id: Bytes, digest: Bytes) {
    && ScannedRanges(content).Some?
    && (exists k :: OccursOnlyAt(content, id + [0], k) && LoadedAt(ScannedRanges(content).value, k, |id| + 1))
    && (exists k :: OccursOnlyAt(content, digest + [0], k) && LoadedAt(ScannedRanges(content).value, k, |digest| + 1))
  }

  method RequireEmbeddedIdentity(content: Bytes, id: Bytes, digest: Bytes) returns (ok: bool)
    ensures ok <==> Embedded(content, id, digest)
  {
    var idAt := FindUnique(content, id + [0]);
    var digestAt := FindUnique(content, digest + [0]);
    if idAt.None? || digestAt.None? {
      return false;
    }
    var ranges := CollectRanges(content);
    if ranges.None? {
      return false;
    }
    ok := LoadedAt(ranges.value, idAt.value, |id| + 1) && LoadedAt(ranges.value, digestAt.value, |digest| + 1);
  }

  method FindUnique(content: Bytes, marker: Bytes) returns (r: Option<nat>)
    ensures forall k: nat :: r == Some(k) <==> OccursOnlyAt(content, marker, k)
  {
    r := Find(content, marker, 0);
    if r.Some? {
      var again := Find(content, marker, r.value + 1);
      if again.Some? {
        r := None;
      }
    }
  }

  method CollectRanges(content: Bytes) returns (r: Option<seq<(nat, nat)>>)
    ensures r == ScannedRanges(content)
  {
    hide Le, HeaderAt;
    if |content| < 58 {
      return None;
    }
    var start, stride, count := Le(content, 32, 8), Le(content, 54, 2), Le(content, 56, 2);
    var ranges: seq<(nat, nat)> := [];
    for index := 0 to count
      invariant Ranges(content, start, stride, index) == Some(ranges)
    {
      var at := HeaderAt(start, stride, index);
      if at + 40 > |content| {
        NoneStaysNone(content, start, stride, index + 1, count);
        return None;
      }
      if Le(content, at, 4) == PT_LOAD {
        ranges := ranges + [(Le(content, at + 8, 8), Le(content, at + 8, 8) + Le(content, at + 32, 8))];
      }
    }
    return Some(ranges);
  }

  lemma {:induction false} NoneStaysNone(content: Bytes, start: nat, stride: nat, n: nat, total: nat)
    requires n <= total && Ranges(content, start, stride, n).None?
    ensures Ranges(content, start, stride, total).None?
    decreases total
  {
    hide Le, HeaderAt;
    if n < total {
      NoneStaysNone(content, start, stride, n, total - 1);
    }
  }

  function FileRange(s: Segment): (nat, nat) {
    (s.offset, s.FileEnd())
  }

  function FileRanges(loads: seq<Segment>): seq<(nat, nat)> {
    seq(|loads|, i requires 0 <= i < |loads| => FileRange(loads[i]))
  }

  /** The second parser agrees with the first: on accepted content the scan sees exactly the
      file ranges of the validated loadable segments. */
  lemma {:induction false} ScanAgrees(content: Bytes, n: nat)
    requires |content| >= HEADER_SIZE && TableFits(content, n)
    ensures Ranges(content, HEADER_SIZE, PROGRAM_HEADER_SIZE, n) == Some(FileRanges(Of(content, n, PT_LOAD)))
  {
    hide Le;
    if n > 0 {
      ScanAgrees(content, n - 1);
      var before := Of(content, n - 1, PT_LOAD);
      var s := SegmentAt(content, n - 1);
      if s.kind == PT_LOAD {
        assert FileRanges(before + [s]) == FileRanges(before) + [FileRange(s)];
      }
    } else {
      assert FileRanges([]) == [];
    }
  }

  lemma AcceptedScanSeesLoads(content: Bytes)
    requires StaticPie(content)
    ensures ScannedRanges(content) == Some(FileRanges(Of(content, Count(content), PT_LOAD)))
  {
    hide Le, SegmentsOk, LayoutOk;
    ScanAgrees(content, Count(content));
  }

  /** In an accepted launcher a range the scan found is inside one loadable segment. */
  lemma MarkerIsLoaded(content: Bytes, k: nat, size: nat) returns (i: nat)
    requires StaticPie(content) && ScannedRanges(content).Some? && LoadedAt(ScannedRanges(content).value, k, size)
    ensures Loaded(content, i) && SegmentAt(content, i).offset <= k && k + size <= SegmentAt(content, i).FileEnd()
  {
    hide Le, SegmentsOk, LayoutOk, SegmentAt, ScannedRanges;
    AcceptedScanSeesLoads(content);
    var loads := Of(content, Count(content), PT_LOAD);
    var m :| 0 <= m < |loads| && FileRanges(loads)[m].0 <= k && k + size <= FileRanges(loads)[m].1;
    OfIsFromTable(content, Count(content), PT_LOAD, m);
    i :| 0 <= i < Count(content) && loads[m] == SegmentAt(content, i);
  }

  /** The marker occurs exactly once, wholly inside the file-backed bytes of the segment. */
  ghost predicate OnceIn(content: Bytes, marker: Bytes, s: Segment) {
    exists k: nat :: OccursOnlyAt(content, marker, k) && s.offset <= k && k + |marker| <= s.FileEnd()
  }

  /** An accepted launcher with its identity embedded carries both its identifier and its digest
      that way. */
  lemma IdentityIsLoaded(content: Bytes, id: Bytes, digest: Bytes) returns (i: nat, j: nat)
    requires StaticPie(content) && Embedded(content, id, digest)
    ensures Loaded(content, i) && OnceIn(content, id + [0], SegmentAt(content, i))
    ensures Loaded(content, j) && OnceIn(content, digest + [0], SegmentAt(content, j))
  {
    hide SegmentAt, ScannedRanges, LoadedAt, OccursOnlyAt, Le, SegmentsOk, LayoutOk;
    var k :| OccursOnlyAt(content, id + [0], k) && LoadedAt(ScannedRanges(content).value, k, |id| + 1);
    i := MarkerIsLoaded(content, k, |id| + 1);
    var l :| OccursOnlyAt(content, digest + [0], l) && LoadedAt(ScannedRanges(content).value, l, |digest| + 1);
    j := MarkerIsLoaded(content, l, |digest| + 1);
  }
}
