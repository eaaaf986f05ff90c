/**
  Scores over the reals: percentiles and bootstrap intervals stay ordered and bounded, and
  neither slicing by name nor slicing by seed changes the headline score.
 */
module Scoring {
  import opened Common
  import opened Arithmetic

  type Id = nat

  // ---------------------------------------------------------------------------------------
  // Sums

  function Sum(s: seq<real>): real {
    if s == [] then 0.0 else Sum(s[..|s| - 1]) + s[|s| - 1]
  }

  lemma SumAppend(s: seq<real>, x: real)
    ensures Sum(s + [x]) == Sum(s) + x
  {
    assert (s + [x])[..|s|] == s;
  }

  predicate Within(s: seq<real>, low: real, high: real) {
    forall i :: 0 <= i < |s| ==> low <= s[i] <= high
  }

  // ---------------------------------------------------------------------------------------
  // Percentiles

  /** Numbers are sorted by themselves. */
  function Value(x: real): real {
    x
  }

  function Ceiling(x: real): int {
    -((-x).Floor)
  }

  /** Linear interpolation between the two nearest order statistics. */
  function Interpolate(ordered: seq<real>, position: real): real
    requires 0.0 <= position <= (|ordered| - 1) as real
  {
    var low, high := position.Floor, Ceiling(position);
    if low == high then ordered[low]
    else
      var remainder := position - low as real;
      ordered[low] * (1.0 - remainder) + ordered[high] * remainder
  }

  /** Where a fraction falls among order statistics numbered from zero to `last`. */
  function Position(last: real, fraction: real): (p: real)
    requires last >= 0.0 && 0.0 <= fraction <= 1.0
    ensures 0.0 <= p <= last
  {
    last * fraction
  }

  function Percentile(values: seq<real>, fraction: real): Result<real>
    requires 0.0 <= fraction <= 1.0
  {
    if values == [] then Rejected
    else Ok(Interpolate(Sorted(values, Value), Position((|values| - 1) as real, fraction)))
  }

  lemma Shrink(x: real, t: real)
    requires x >= 0.0 && 0.0 <= t <= 1.0
    ensures 0.0 <= x * t <= x
  {
  }

  lemma Grow(x: real, s: real, t: real)
    requires x >= 0.0 && s <= t
    ensures x * s <= x * t
  {
  }

  lemma Spread(a: real, b: real, t: real)
    ensures a * (1.0 - t) + b * t == a + (b - a) * t
  {
  }

  lemma Blend(a: real, b: real, t: real)
    requires a <= b && 0.0 <= t <= 1.0
    ensures a <= a * (1.0 - t) + b * t <= b
  {
    Spread(a, b, t);
    Shrink(b - a, t);
    var m := (b - a) * t;
    assert 0.0 <= m <= b - a;
    assert a <= a + m <= b;
  }

  lemma InterpolateBetween(ordered: seq<real>, position: real)
    requires Ascending(ordered, Value) && 0.0 <= position <= (|ordered| - 1) as real
    ensures ordered[position.Floor] <= Interpolate(ordered, position) <= ordered[Ceiling(position)]
  {
    var low, high := position.Floor, Ceiling(position);
    if low != high {
      Blend(ordered[low], ordered[high], position - low as real);
    }
  }

  lemma BlendMonotone(a: real, b: real, s: real, t: real)
    requires a <= b && s <= t
    ensures a * (1.0 - s) + b * s <= a * (1.0 - t) + b * t
  {
    Spread(a, b, s);
    Spread(a, b, t);
    Grow(b - a, s, t);
  }

  /** A later position never gives a smaller value. */
  lemma InterpolateMonotone(ordered: seq<real>, p: real, q: real)
    requires Ascending(ordered, Value) && 0.0 <= p <= q <= (|ordered| - 1) as real
    ensures Interpolate(ordered, p) <= Interpolate(ordered, q)
  {
    InterpolateBetween(ordered, p);
    InterpolateBetween(ordered, q);
    if p.Floor == q.Floor {
      var low := p.Floor;
      if p > low as real {
        BlendMonotone(ordered[low], ordered[low + 1], p - low as real, q - low as real);
      }
    } else {
      assert Ceiling(p) <= q.Floor;
    }
  }

  /** Percentiles of values in a range stay in it and grow with the fraction. */
  lemma PercentileBounds(values: seq<real>, low: real, high: real, f: real, g: real)
    requires values != [] && Within(values, low, high) && 0.0 <= f <= g <= 1.0
    ensures low <= Percentile(values, f).value <= Percentile(values, g).value <= high
  {
    hide Interpolate, Sorted, Position;
    var ordered := Sorted(values, Value);
    forall i | 0 <= i < |ordered| ensures low <= ordered[i] <= high {
      assert ordered[i] in multiset(ordered);
      assert ordered[i] in values;
    }
    var last := (|values| - 1) as real;
    var p, q := Position(last, f), Position(last, g);
    PositionMonotone(last, f, g);
    InterpolateBetween(ordered, p);
    InterpolateBetween(ordered, q);
    InterpolateMonotone(ordered, p, q);
  }

  lemma PositionMonotone(last: real, f: real, g: real)
    requires last >= 0.0 && 0.0 <= f <= g <= 1.0
    ensures Position(last, f) <= Position(last, g)
  {
  }

  // ---------------------------------------------------------------------------------------
  // Slices

  datatype Task = Task(id: Id, slice: Id, cluster: Id)

  datatype Slice = Slice(name: Id, count: nat, score: real)

  /** The scores of the first `n` tasks, or of those among them in one slice. */
  function ScoresOf(tasks: seq<Task>, scores: map<Id, real>, name: Id): seq<real>
    requires forall t :: t in tasks ==> t.id in scores
  {
    if tasks == [] then []
    else
      var t := tasks[|tasks| - 1];
      var before := ScoresOf(tasks[..|tasks| - 1], scores, name);
      if t.slice == name then before + [scores[t.id]] else before
  }

  function AllScores(tasks: seq<Task>, scores: map<Id, real>): seq<real>
    requires forall t :: t in tasks ==> t.id in scores
  {
    seq(|tasks|, i requires 0 <= i < |tasks| => scores[tasks[i].id])
  }

  function Mean(s: seq<real>): real
    requires s != []
  {
    Sum(s) / |s| as real
  }

  /** Slices weighted by their task counts. */
  function Weighted(slices: seq<Slice>): real {
    if slices == [] then 0.0
    else
      var last := slices[|slices| - 1];
      Weighted(slices[..|slices| - 1]) + last.count as real * last.score
  }

  predicate NoDuplicates(names: seq<Id>) {
    forall i, j :: 0 <= i < j < |names| ==> names[i] != names[j]
  }

  /** `names` lists every slice of the tasks once. */
  predicate Lists(names: seq<Id>, tasks: seq<Task>) {
    && NoDuplicates(names)
    && (forall t :: t in tasks ==> t.slice in names)
  }

  /** Sum over slices of the sum inside each. */
  function SliceTotals(names: seq<Id>, tasks: seq<Task>, scores: map<Id, real>): real
    requires forall t :: t in tasks ==> t.id in scores
  {
    if names == [] then 0.0
    else
      SliceTotals(names[..|names| - 1], tasks, scores)
      + Sum(ScoresOf(tasks, scores, names[|names| - 1]))
  }

  lemma {:induction false} OneMoreTask(names: seq<Id>, tasks: seq<Task>, scores: map<Id, real>)
    requires tasks != [] && (forall t :: t in tasks ==> t.id in scores) && NoDuplicates(names)
    ensures SliceTotals(names, tasks, scores)
         == SliceTotals(names, tasks[..|tasks| - 1], scores)
            + (if tasks[|tasks| - 1].slice in names then scores[tasks[|tasks| - 1].id] else 0.0)
    decreases names
  {
    if names != [] {
      var rest, name, t := names[..|names| - 1], names[|names| - 1], tasks[|tasks| - 1];
      OneMoreTask(rest, tasks, scores);
      assert names == rest + [name];
      if t.slice == name {
        SumAppend(ScoresOf(tasks[..|tasks| - 1], scores, name), scores[t.id]);
      }
    }
  }

  /** Splitting the tasks into slices loses and double-counts nothing. */
  lemma {:induction false} SlicesPartition(names: seq<Id>, tasks: seq<Task>, scores: map<Id, real>)
    requires (forall t :: t in tasks ==> t.id in scores) && Lists(names, tasks)
    ensures SliceTotals(names, tasks, scores) == Sum(AllScores(tasks, scores))
    decreases tasks
  {
    if tasks == [] {
      NoTasks(names, scores);
    } else {
      var n := |tasks| - 1;
      SlicesPartition(names, tasks[..n], scores);
      OneMoreTask(names, tasks, scores);
      assert tasks[n] in tasks;
      assert AllScores(tasks, scores)[..n] == AllScores(tasks[..n], scores);
    }
  }

  lemma {:induction false} NoTasks(names: seq<Id>, scores: map<Id, real>)
    ensures SliceTotals(names, [], scores) == 0.0
  {
    if names != [] {
      NoTasks(names[..|names| - 1], scores);
    }
  }

  /** One slice per name, holding the count and mean of its scores. */
  function SlicesOf(names: seq<Id>, tasks: seq<Task>, scores: map<Id, real>): (r: seq<Slice>)
    requires forall t :: t in tasks ==> t.id in scores
    requires forall name :: name in names ==> ScoresOf(tasks, scores, name) != []
    ensures |r| == |names|
  {
    seq(|names|, i requires 0 <= i < |names| =>
      Slice(names[i], |ScoresOf(tasks, scores, names[i])|, Mean(ScoresOf(tasks, scores, names[i]))))
  }

  lemma CountTimesMean(s: seq<real>)
    requires s != []
    ensures |s| as real * Mean(s) == Sum(s)
  {
  }

  lemma {:induction false} WeightedIsTotal(names: seq<Id>, tasks: seq<Task>, scores: map<Id, real>)
    requires forall t :: t in tasks ==> t.id in scores
    requires forall name :: name in names ==> ScoresOf(tasks, scores, name) != []
    ensures Weighted(SlicesOf(names, tasks, scores)) == SliceTotals(names, tasks, scores)
    decreases names
  {
    if names != [] {
      var n := |names| - 1;
      WeightedIsTotal(names[..n], tasks, scores);
      assert SlicesOf(names, tasks, scores)[..n] == SlicesOf(names[..n], tasks, scores);
      assert names[n] in names;
      CountTimesMean(ScoresOf(tasks, scores, names[n]));
    }
  }

  /** Task-count-weighted slice scores give the headline score back. */
  lemma SlicesConserveHeadline(names: seq<Id>, tasks: seq<Task>, scores: map<Id, real>)
    requires tasks != [] && (forall t :: t in tasks ==> t.id in scores) && Lists(names, tasks)
    requires forall name :: name in names ==> ScoresOf(tasks, scores, name) != []
    ensures Weighted(SlicesOf(names, tasks, scores)) / |tasks| as real == Mean(AllScores(tasks, scores))
  {
    WeightedIsTotal(names, tasks, scores);
    SlicesPartition(names, tasks, scores);
  }

  /** The grouping loop: a dictionary of score lists and the names in first-seen order. */
  method GroupScores(tasks: seq<Task>, scores: map<Id, real>) returns (names: seq<Id>, grouped: map<Id, seq<real>>)
    requires forall t :: t in tasks ==> t.id in scores
    ensures Lists(names, tasks) && (forall name :: name in names <==> name in grouped)
    ensures forall name :: name in grouped ==> grouped[name] == ScoresOf(tasks, scores, name) && grouped[name] != []
  {
    grouped := map[];
    names := [];
    for i := 0 to |tasks|
      invariant Lists(names, tasks[..i]) && (forall name :: name in names <==> name in grouped)
      invariant forall name :: name in grouped ==>
                  grouped[name] == ScoresOf(tasks[..i], scores, name) && grouped[name] != []
      invariant forall name :: name !in grouped ==> ScoresOf(tasks[..i], scores, name) == []
    {
      var task := tasks[i];
      assert tasks[..i + 1][..i] == tasks[..i] && tasks[..i + 1][i] == task;
      if task.slice in grouped {
        grouped := grouped[task.slice := grouped[task.slice] + [scores[task.id]]];
      } else {
        grouped := grouped[task.slice := [scores[task.id]]];
        names := names + [task.slice];
      }
    }
    assert tasks[..|tasks|] == tasks;
  }

  /** Slice names in their order. */
  function Name(name: Id): real {
    name as real
  }

  /** Something that occurs at two places occurs twice. */
  lemma TwoPlaces(s: seq<Id>, i: nat, j: nat)
    requires i < j < |s| && s[i] == s[j]
    ensures multiset(s)[s[i]] >= 2
  {
    assert s == s[..i] + [s[i]] + s[i + 1..j] + [s[j]] + s[j + 1..];
  }

  lemma {:induction false} OncePlace(s: seq<Id>, x: Id)
    requires NoDuplicates(s)
    ensures multiset(s)[x] <= 1
  {
    if s != [] {
      var n := |s| - 1;
      OncePlace(s[..n], x);
      assert s == s[..n] + [s[n]];
      if s[n] == x {
        assert forall i :: 0 <= i < n ==> s[..n][i] != x;
      }
    }
  }

  /** Sorting the names keeps them a list of every slice, each once. */
  lemma SortedNamesList(names: seq<Id>, sorted: seq<Id>, tasks: seq<Task>)
    requires Lists(names, tasks) && multiset(sorted) == multiset(names)
    ensures Lists(sorted, tasks) && forall name :: name in sorted <==> name in names
  {
    forall i, j | 0 <= i < j < |sorted| ensures sorted[i] != sorted[j] {
      if sorted[i] == sorted[j] {
        TwoPlaces(sorted, i, j);
        OncePlace(names, sorted[i]);
      }
    }
    assert forall name :: name in sorted <==> name in multiset(sorted);
    assert forall name :: name in names <==> name in multiset(names);
  }

  /** One slice per name, in the order of the names. */
  method SliceScores(tasks: seq<Task>, scores: map<Id, real>) returns (names: seq<Id>, slices: seq<Slice>)
    requires forall t :: t in tasks ==> t.id in scores
    ensures Lists(names, tasks) && Ascending(names, Name)
    ensures forall name :: name in names ==> ScoresOf(tasks, scores, name) != []
    ensures slices == SlicesOf(names, tasks, scores)
  {
    hide ScoresOf, Sum, Ascending;
    var found, grouped := GroupScores(tasks, scores);
    names := Sorted(found, Name);
    SortedNamesList(found, names, tasks);
    slices := [];
    for i := 0 to |names|
      invariant |slices| == i
      invariant forall k :: 0 <= k < i ==> slices[k] == SlicesOf(names, tasks, scores)[k]
    {
      assert names[i] in names;
      var list := grouped[names[i]];
      var total := SumOf(list);
      slices := slices + [Slice(names[i], |list|, total / |list| as real)];
    }
  }

  method SumOf(s: seq<real>) returns (r: real)
    ensures r == Sum(s)
  {
    r := 0.0;
    for i := 0 to |s|
      invariant r == Sum(s[..i])
    {
      SumAppend(s[..i], s[i]);
      assert s[..i + 1] == s[..i] + [s[i]];
      r := r + s[i];
    }
    assert s[..|s|] == s;
  }

  // ---------------------------------------------------------------------------------------
  // Seeds

  /** Scores as a table: one row per task, one column per training seed. */
  predicate Table(rows: seq<seq<real>>, columns: nat) {
    forall i :: 0 <= i < |rows| ==> |rows[i]| == columns
  }

  function Column(rows: seq<seq<real>>, columns: nat, j: nat): (r: seq<real>)
    requires Table(rows, columns) && j < columns
    ensures |r| == |rows|
  {
    seq(|rows|, i requires 0 <= i < |rows| => rows[i][j])
  }

  function RowSums(rows: seq<seq<real>>): (r: seq<real>)
    ensures |r| == |rows|
  {
    seq(|rows|, i requires 0 <= i < |rows| => Sum(rows[i]))
  }

  function ColumnSums(rows: seq<seq<real>>, columns: nat, n: nat): (r: seq<real>)
    requires Table(rows, columns) && n <= columns
    ensures |r| == n
  {
    seq(n, j requires 0 <= j < n => Sum(Column(rows, columns, j)))
  }

  function Heads(rows: seq<seq<real>>, columns: nat, n: nat): (r: seq<seq<real>>)
    requires Table(rows, columns) && n <= columns
    ensures Table(r, n) && |r| == |rows|
  {
    seq(|rows|, i requires 0 <= i < |rows| => rows[i][..n])
  }

  lemma {:induction false} SumOfSums(a: seq<real>, b: seq<real>, c: seq<real>)
    requires |a| == |b| == |c| && forall i :: 0 <= i < |a| ==> c[i] == a[i] + b[i]
    ensures Sum(c) == Sum(a) + Sum(b)
  {
    if a != [] {
      SumOfSums(a[..|a| - 1], b[..|b| - 1], c[..|c| - 1]);
    }
  }

  lemma {:induction false} SumOfZeros(s: seq<real>)
    requires forall i :: 0 <= i < |s| ==> s[i] == 0.0
    ensures Sum(s) == 0.0
  {
    if s != [] {
      SumOfZeros(s[..|s| - 1]);
    }
  }

  /** Adding up by rows or by columns is the same. */
  lemma {:induction false} SwapSums(rows: seq<seq<real>>, columns: nat, n: nat)
    requires Table(rows, columns) && n <= columns
    ensures Sum(RowSums(Heads(rows, columns, n))) == Sum(ColumnSums(rows, columns, n))
  {
    hide Sum;
    var heads := Heads(rows, columns, n);
    if n == 0 {
      EmptyRows(heads);
      EmptySum();
      assert ColumnSums(rows, columns, 0) == [];
    } else {
      SwapSums(rows, columns, n - 1);
      var shorter := Heads(rows, columns, n - 1);
      var last := Column(rows, columns, n - 1);
      forall i | 0 <= i < |rows| ensures RowSums(heads)[i] == RowSums(shorter)[i] + last[i] {
        assert heads[i] == shorter[i] + [last[i]];
        SumAppend(shorter[i], last[i]);
      }
      SumOfSums(RowSums(shorter), last, RowSums(heads));
      assert ColumnSums(rows, columns, n) == ColumnSums(rows, columns, n - 1) + [Sum(last)];
      SumAppend(ColumnSums(rows, columns, n - 1), Sum(last));
    }
  }

  lemma EmptySum()
    ensures Sum([]) == 0.0
  {
  }

  lemma EmptyRows(rows: seq<seq<real>>)
    requires Table(rows, 0)
    ensures Sum(RowSums(rows)) == 0.0
  {
    SumOfZeros(RowSums(rows));
  }

  /** Each entry divided by `d`. */
  function Scaled(s: seq<real>, d: real): (r: seq<real>)
    requires d > 0.0
    ensures |r| == |s|
  {
    seq(|s|, i requires 0 <= i < |s| => s[i] / d)
  }

  lemma {:induction false} SumScaled(s: seq<real>, d: real)
    requires d > 0.0
    ensures Sum(Scaled(s, d)) == Sum(s) / d
  {
    if s != [] {
      var n := |s| - 1;
      SumScaled(s[..n], d);
      assert Scaled(s, d)[..n] == Scaled(s[..n], d);
      assert Sum(s[..n]) / d + s[n] / d == (Sum(s[..n]) + s[n]) / d;
    }
  }

  /** Mean over tasks of the mean over seeds. */
  function Headline(rows: seq<seq<real>>, columns: nat): real
    requires Table(rows, columns) && rows != [] && columns > 0
  {
    Sum(Scaled(RowSums(rows), columns as real)) / |rows| as real
  }

  /** Mean over seeds of the score of each seed. */
  function MeanOfSeeds(rows: seq<seq<real>>, columns: nat): real
    requires Table(rows, columns) && rows != [] && columns > 0
  {
    Sum(Scaled(ColumnSums(rows, columns, columns), |rows| as real)) / columns as real
  }

  /** The mean of the per-seed scores is the headline score. */
  lemma SeedsConserveHeadline(rows: seq<seq<real>>, columns: nat)
    requires Table(rows, columns) && rows != [] && columns > 0
    ensures MeanOfSeeds(rows, columns) == Headline(rows, columns)
  {
    hide Sum;
    SumScaled(RowSums(rows), columns as real);
    SumScaled(ColumnSums(rows, columns, columns), |rows| as real);
    SwapSums(rows, columns, columns);
    assert Heads(rows, columns, columns) == rows by {
      forall i | 0 <= i < |rows| ensures rows[i][..columns] == rows[i] {
      }
    }
    DivideTwice(Sum(RowSums(rows)), columns as real, |rows| as real);
  }

  lemma DivideTwice(x: real, a: real, b: real)
    requires a > 0.0 && b > 0.0
    ensures x / a / b == x / b / a
  {
    var p, q := x / a / b, x / b / a;
    assert p * b == x / a && x / a * a == x;
    assert q * a == x / b && x / b * b == x;
    assert p * (a * b) == x && q * (a * b) == x;
    assert a * b > 0.0;
    assert p > q ==> p * (a * b) > q * (a * b);
    assert p < q ==> p * (a * b) < q * (a * b);
  }

  // ---------------------------------------------------------------------------------------
  // The cluster bootstrap

  function Members(tasks: seq<Task>, name: Id): nat {
    if tasks == [] then 0
    else Members(tasks[..|tasks| - 1], name) + (if tasks[|tasks| - 1].slice == name then 1 else 0)
  }

  function MemberTotals(names: seq<Id>, tasks: seq<Task>): nat {
    if names == [] then 0 else MemberTotals(names[..|names| - 1], tasks) + Members(tasks, names[|names| - 1])
  }

  lemma {:induction false} OneMoreMember(names: seq<Id>, tasks: seq<Task>)
    requires tasks != [] && NoDuplicates(names)
    ensures MemberTotals(names, tasks)
         == MemberTotals(names, tasks[..|tasks| - 1]) + (if tasks[|tasks| - 1].slice in names then 1 else 0)
    decreases names
  {
    if names != [] {
      OneMoreMember(names[..|names| - 1], tasks);
      assert names == names[..|names| - 1] + [names[|names| - 1]];
    }
  }

  /** Every task is a member of exactly one listed stratum. */
  lemma {:induction false} MembersPartition(names: seq<Id>, tasks: seq<Task>)
    requires Lists(names, tasks)
    ensures MemberTotals(names, tasks) == |tasks|
    decreases tasks
  {
    if tasks == [] {
      NoMembers(names);
    } else {
      MembersPartition(names, tasks[..|tasks| - 1]);
      OneMoreMember(names, tasks);
      assert tasks[|tasks| - 1] in tasks;
    }
  }

  lemma {:induction false} NoMembers(names: seq<Id>)
    ensures MemberTotals(names, []) == 0
  {
    if names != [] {
      NoMembers(names[..|names| - 1]);
    }
  }

  /** One draw of weights, shared by all strata. An exponential draw can be zero. */
  datatype Draw = Draw(cluster: map<Id, real>, seed: map<Id, real>)

  predicate DrawOk(draw: Draw, tasks: seq<Task>, seeds: seq<Id>) {
    && (forall t :: t in tasks ==> t.cluster in draw.cluster && draw.cluster[t.cluster] >= 0.0)
    && (forall s :: s in seeds ==> s in draw.seed && draw.seed[s] >= 0.0)
  }

  predicate SomePositive(weights: seq<real>) {
    exists i :: 0 <= i < |weights| && weights[i] > 0.0
  }

  /** Some task of the stratum has a cluster of positive weight. */
  predicate StratumDrawn(tasks: seq<Task>, name: Id, draw: Draw) {
    exists i :: 0 <= i < |tasks| && tasks[i].slice == name
                && tasks[i].cluster in draw.cluster && draw.cluster[tasks[i].cluster] > 0.0
  }

  /** What a draw must offer for the replicate to exist. */
  predicate Replicable(tasks: seq<Task>, strata: seq<Id>, seeds: seq<Id>, draw: Draw)
    requires DrawOk(draw, tasks, seeds)
  {
    && tasks != [] && SomePositive(SeedWeights(seeds, draw))
    && forall name :: name in strata ==> StratumDrawn(tasks, name, draw)
  }

  predicate ScoresOk(scores: map<(Id, Id), real>, tasks: seq<Task>, seeds: seq<Id>) {
    forall t, s :: t in tasks && s in seeds ==> (s, t.id) in scores && 0.0 <= scores[(s, t.id)] <= 1.0
  }

  /** The scores of one task, seed by seed. */
  function Row(seeds: seq<Id>, scores: map<(Id, Id), real>, id: Id): (r: seq<real>)
    requires forall s :: s in seeds ==> (s, id) in scores
    ensures |r| == |seeds|
  {
    seq(|seeds|, j requires 0 <= j < |seeds| => scores[(seeds[j], id)])
  }

  function SeedWeights(seeds: seq<Id>, draw: Draw): (r: seq<real>)
    requires forall s :: s in seeds ==> s in draw.seed
    ensures |r| == |seeds|
  {
    seq(|seeds|, j requires 0 <= j < |seeds| => draw.seed[seeds[j]])
  }

  /** A product, under a name that proofs can keep closed. */
  function Times(c: real, x: real): real {
    c * x
  }

  lemma TimesAdds(c: real, x: real, y: real)
    ensures Times(c, x) + Times(c, y) == Times(c, x + y) && Times(c, 0.0) == 0.0
  {
  }

  lemma TimesTwice(w: real, v: real, x: real)
    ensures Times(w, Times(v, x)) == Times(Times(w, v), x)
  {
  }

  function Dot(a: seq<real>, b: seq<real>): real
    requires |a| == |b|
  {
    if a == [] then 0.0 else Dot(a[..|a| - 1], b[..|b| - 1]) + Times(a[|a| - 1], b[|b| - 1])
  }

  lemma DotAppend(a: seq<real>, b: seq<real>, x: real, y: real)
    requires |a| == |b|
    ensures Dot(a + [x], b + [y]) == Dot(a, b) + Times(x, y)
  {
    hide Times;
    assert (a + [x])[..|a|] == a && (b + [y])[..|b|] == b;
  }

  /** Each task of the stratum contributes its seed-weighted score times its cluster's weight. */
  function StratumTotal(tasks: seq<Task>, name: Id, seeds: seq<Id>, draw: Draw, scores: map<(Id, Id), real>): real
    requires DrawOk(draw, tasks, seeds) && ScoresOk(scores, tasks, seeds)
  {
    if tasks == [] then 0.0
    else
      var t := tasks[|tasks| - 1];
      StratumTotal(tasks[..|tasks| - 1], name, seeds, draw, scores)
      + (if t.slice == name then Times(draw.cluster[t.cluster], Dot(SeedWeights(seeds, draw), Row(seeds, scores, t.id)))
         else 0.0)
  }

  function StratumWeight(tasks: seq<Task>, name: Id, seeds: seq<Id>, draw: Draw): real
    requires DrawOk(draw, tasks, seeds)
  {
    if tasks == [] then 0.0
    else
      var t := tasks[|tasks| - 1];
      StratumWeight(tasks[..|tasks| - 1], name, seeds, draw)
      + (if t.slice == name then Times(draw.cluster[t.cluster], Sum(SeedWeights(seeds, draw))) else 0.0)
  }

  function Ratio(x: real, y: real): real {
    if y == 0.0 then 0.0 else x / y
  }

  /** Stratum averages, each counted once per task of the stratum. */
  function StrataTotal(
    tasks: seq<Task>, strata: seq<Id>, seeds: seq<Id>, draw: Draw, scores: map<(Id, Id), real>): real
    requires DrawOk(draw, tasks, seeds) && ScoresOk(scores, tasks, seeds)
  {
    if strata == [] then 0.0
    else
      var name := strata[|strata| - 1];
      StrataTotal(tasks, strata[..|strata| - 1], seeds, draw, scores)
      + Times(Ratio(StratumTotal(tasks, name, seeds, draw, scores), StratumWeight(tasks, name, seeds, draw)),
              Members(tasks, name) as real)
  }

  function ReplicateOf(
    tasks: seq<Task>, strata: seq<Id>, seeds: seq<Id>, draw: Draw, scores: map<(Id, Id), real>): real
    requires tasks != [] && DrawOk(draw, tasks, seeds) && ScoresOk(scores, tasks, seeds)
  {
    StrataTotal(tasks, strata, seeds, draw, scores) / |tasks| as real
  }

  lemma PartOfProduct(w: real, v: real, score: real)
    requires w >= 0.0 && v >= 0.0 && 0.0 <= score <= 1.0
    ensures 0.0 <= Times(Times(w, v), score) <= Times(w, v)
    ensures Times(w, v) > 0.0 <==> w > 0.0 && v > 0.0
  {
    hide Times;
    TimesSign(w, v);
    TimesShrinks(Times(w, v), score);
  }

  lemma TimesSign(x: real, y: real)
    requires x >= 0.0 && y >= 0.0
    ensures Times(x, y) >= 0.0 && (Times(x, y) > 0.0 <==> x > 0.0 && y > 0.0)
  {
    if x > 0.0 && y > 0.0 {
      MultiplyPositive(x, y);
    } else {
      assert Times(x, y) == 0.0;
    }
  }

  lemma TimesShrinks(x: real, t: real)
    requires x >= 0.0 && 0.0 <= t <= 1.0
    ensures 0.0 <= Times(x, t) <= x
  {
    Shrink(x, t);
  }

  lemma QuotientInUnit(x: real, y: real)
    requires 0.0 <= x <= y && y > 0.0
    ensures 0.0 <= x / y <= 1.0
  {
    var q := x / y;
    assert q * y == x;
    assert q > 1.0 ==> q * y > y;
    assert q < 0.0 ==> q * y < 0.0;
  }

  lemma Distribute(w: real, a: real, v: real, x: real)
    ensures Times(w, a + Times(v, x)) == Times(w, a) + Times(Times(w, v), x)
  {
    hide Times;
    TimesAdds(w, a, Times(v, x));
    TimesTwice(w, v, x);
  }

  /** One task's part of both sums, accumulated seed by seed. */
  method AddTask(
    seeds: seq<Id>, draw: Draw, w: real, id: Id, scores: map<(Id, Id), real>, numerator: real, denominator: real)
    returns (numerator': real, denominator': real)
    requires w >= 0.0 && forall s :: s in seeds ==> s in draw.seed && draw.seed[s] >= 0.0
    requires forall s :: s in seeds ==> (s, id) in scores && 0.0 <= scores[(s, id)] <= 1.0
    requires 0.0 <= numerator <= denominator
    ensures numerator' == numerator + Times(w, Dot(SeedWeights(seeds, draw), Row(seeds, scores, id)))
    ensures denominator' == denominator + Times(w, Sum(SeedWeights(seeds, draw)))
    ensures 0.0 <= numerator' <= denominator'
    ensures denominator' > 0.0 <==> denominator > 0.0 || (w > 0.0 && SomePositive(SeedWeights(seeds, draw)))
  {
    hide Dot, Sum, Times, SomePositive;
    var weights, row := SeedWeights(seeds, draw), Row(seeds, scores, id);
    numerator', denominator' := numerator, denominator;
    EmptyDot();
    EmptySum();
    TimesAdds(w, 0.0, 0.0);
    NonePositive();
    for j := 0 to |seeds|
      invariant numerator' == numerator + Times(w, Dot(weights[..j], row[..j]))
      invariant denominator' == denominator + Times(w, Sum(weights[..j]))
      invariant 0.0 <= numerator' <= denominator'
      invariant denominator' > 0.0 <==> denominator > 0.0 || (w > 0.0 && SomePositive(weights[..j]))
    {
      assert seeds[j] in seeds;
      var v, score := draw.seed[seeds[j]], scores[(seeds[j], id)];
      PartOfProduct(w, v, score);
      assert weights[..j + 1] == weights[..j] + [v] && row[..j + 1] == row[..j] + [score];
      DotAppend(weights[..j], row[..j], v, score);
      SumAppend(weights[..j], v);
      OneMorePositive(weights[..j], v);
      Distribute(w, Dot(weights[..j], row[..j]), v, score);
      TimesAdds(w, Sum(weights[..j]), v);
      var weight := Times(w, v);
      denominator' := denominator' + weight;
      numerator' := numerator' + Times(weight, score);
    }
    assert weights[..|seeds|] == weights && row[..|seeds|] == row;
  }

  lemma NonePositive()
    ensures !SomePositive([])
  {
  }

  lemma OneMorePositive(weights: seq<real>, v: real)
    ensures SomePositive(weights + [v]) <==> SomePositive(weights) || v > 0.0
  {
    var more := weights + [v];
    assert more[|weights|] == v;
    if i :| 0 <= i < |weights| && weights[i] > 0.0 {
      assert more[i] == weights[i];
    }
  }

  lemma EmptyDot()
    ensures Dot([], []) == 0.0
  {
  }

  lemma NoTasksYet(name: Id, seeds: seq<Id>, draw: Draw, scores: map<(Id, Id), real>)
    requires DrawOk(draw, [], seeds)
    ensures StratumTotal([], name, seeds, draw, scores) == 0.0 == StratumWeight([], name, seeds, draw)
    ensures Members([], name) == 0 && !StratumDrawn([], name, draw)
  {
  }

  lemma StratumStep(
    tasks: seq<Task>, i: nat, name: Id, seeds: seq<Id>, draw: Draw, scores: map<(Id, Id), real>)
    requires i < |tasks| && DrawOk(draw, tasks, seeds) && ScoresOk(scores, tasks, seeds)
    ensures var (t, mine) := (tasks[i], tasks[i].slice == name);
            && Members(tasks[..i + 1], name) == Members(tasks[..i], name) + (if mine then 1 else 0)
            && (StratumDrawn(tasks[..i + 1], name, draw)
                <==> StratumDrawn(tasks[..i], name, draw) || (mine && draw.cluster[t.cluster] > 0.0))
            && StratumTotal(tasks[..i + 1], name, seeds, draw, scores)
            == StratumTotal(tasks[..i], name, seeds, draw, scores)
               + (if mine then Times(draw.cluster[t.cluster], Dot(SeedWeights(seeds, draw), Row(seeds, scores, t.id)))
                  else 0.0)
            && StratumWeight(tasks[..i + 1], name, seeds, draw)
            == StratumWeight(tasks[..i], name, seeds, draw)
               + (if mine then Times(draw.cluster[t.cluster], Sum(SeedWeights(seeds, draw))) else 0.0)
  {
    hide Dot, Sum;
    assert tasks[..i + 1][..i] == tasks[..i] && tasks[..i + 1][i] == tasks[i];
    if j :| 0 <= j < i && tasks[..i][j].slice == name && draw.cluster[tasks[..i][j].cluster] > 0.0 {
      assert tasks[..i + 1][j] == tasks[..i][j];
    }
  }

  /** The weighted mean of one stratum, unless the weights add up to zero: then the division
      raises. */
  method StratumMean(
    tasks: seq<Task>, name: Id, seeds: seq<Id>, draw: Draw, scores: map<(Id, Id), real>)
    returns (mean: Result<real>, count: nat)
    requires DrawOk(draw, tasks, seeds) && ScoresOk(scores, tasks, seeds)
    ensures mean.Ok? <==> StratumDrawn(tasks, name, draw) && SomePositive(SeedWeights(seeds, draw))
    ensures mean.Ok? ==>
              && 0.0 <= mean.value <= 1.0
              && mean.value
              == Ratio(StratumTotal(tasks, name, seeds, draw, scores), StratumWeight(tasks, name, seeds, draw))
    ensures count == Members(tasks, name)
  {
    hide Dot, Sum, StratumTotal, StratumWeight, Members, StratumDrawn, SomePositive;
    var numerator, denominator := 0.0, 0.0;
    count := 0;
    NoTasksYet(name, seeds, draw, scores);
    for i := 0 to |tasks|
      invariant count == Members(tasks[..i], name)
      invariant numerator == StratumTotal(tasks[..i], name, seeds, draw, scores)
      invariant denominator == StratumWeight(tasks[..i], name, seeds, draw)
      invariant 0.0 <= numerator <= denominator
      invariant denominator > 0.0 <==>
                StratumDrawn(tasks[..i], name, draw) && SomePositive(SeedWeights(seeds, draw))
    {
      var task := tasks[i];
      StratumStep(tasks, i, name, seeds, draw, scores);
      if task.slice == name {
        count := count + 1;
        numerator, denominator :=
          AddTask(seeds, draw, draw.cluster[task.cluster], task.id, scores, numerator, denominator);
      }
    }
    assert tasks[..|tasks|] == tasks;
    if denominator == 0.0 {
      return Rejected, count;
    }
    QuotientInUnit(numerator, denominator);
    mean := Ok(numerator / denominator);
  }

  lemma UnitTimes(x: real, n: nat)
    requires 0.0 <= x <= 1.0
    ensures 0.0 <= Times(x, n as real) <= n as real
  {
    Shrink(n as real, x);
    assert Times(x, n as real) == n as real * x;
  }

  /** One replicate: stratum means weighted by how many tasks each stratum has. It exists exactly
      if some seed, and in every stratum some cluster, has a positive weight. */
  method Replicate(tasks: seq<Task>, strata: seq<Id>, seeds: seq<Id>, draw: Draw, scores: map<(Id, Id), real>)
    returns (r: Result<real>)
    requires Lists(strata, tasks) && DrawOk(draw, tasks, seeds) && ScoresOk(scores, tasks, seeds)
    ensures r.Ok? <==> Replicable(tasks, strata, seeds, draw)
    ensures r.Ok? ==> r.value == ReplicateOf(tasks, strata, seeds, draw, scores) && 0.0 <= r.value <= 1.0
  {
    hide Members, StratumTotal, StratumWeight, Ratio, Times, StratumDrawn, SomePositive;
    var weighted := 0.0;
    for i := 0 to |strata|
      invariant weighted == StrataTotal(tasks, strata[..i], seeds, draw, scores)
      invariant 0.0 <= weighted <= MemberTotals(strata[..i], tasks) as real
      invariant forall k :: 0 <= k < i ==>
                  StratumDrawn(tasks, strata[k], draw) && SomePositive(SeedWeights(seeds, draw))
    {
      var mean, count := StratumMean(tasks, strata[i], seeds, draw, scores);
      if mean.Rejected? {
        assert strata[i] in strata;
        return Rejected;
      }
      UnitTimes(mean.value, count);
      assert strata[..i + 1][..i] == strata[..i];
      assert MemberTotals(strata[..i + 1], tasks) == MemberTotals(strata[..i], tasks) + count;
      weighted := weighted + Times(mean.value, count as real);
    }
    assert strata[..|strata|] == strata;
    MembersPartition(strata, tasks);
    if tasks == [] {
      return Rejected;
    }
    assert tasks[0].slice in strata;
    QuotientInUnit(weighted, |tasks| as real);
    r := Ok(weighted / |tasks| as real);
  }

  /** The interval exists exactly if something is drawn and every draw has a replicate; then it is
      ordered and inside the unit interval, and its ends are the 2.5 and 97.5 percentiles of the
      replicates. */
  method BootstrapInterval(
    tasks: seq<Task>, strata: seq<Id>, seeds: seq<Id>, draws: seq<Draw>, scores: map<(Id, Id), real>)
    returns (r: Result<(real, real)>)
    requires Lists(strata, tasks) && ScoresOk(scores, tasks, seeds)
    requires forall d :: d in draws ==> DrawOk(d, tasks, seeds)
    ensures r.Ok? <==> draws != [] && forall d :: d in draws ==> Replicable(tasks, strata, seeds, d)
    ensures r.Ok? ==>
              && tasks != [] && 0.0 <= r.value.0 <= r.value.1 <= 1.0
              && Percentile(Replicates(tasks, strata, seeds, draws, scores), 0.025) == Ok(r.value.0)
              && Percentile(Replicates(tasks, strata, seeds, draws, scores), 0.975) == Ok(r.value.1)
  {
    hide Percentile, ReplicateOf, SomePositive, StratumDrawn;
    var replicates: seq<real> := [];
    for i := 0 to |draws|
      invariant |replicates| == i && Within(replicates, 0.0, 1.0) && (i > 0 ==> tasks != [])
      invariant forall k :: 0 <= k < i ==>
                  && Replicable(tasks, strata, seeds, draws[k])
                  && replicates[k] == ReplicateOf(tasks, strata, seeds, draws[k], scores)
    {
      assert draws[i] in draws;
      var replicate := Replicate(tasks, strata, seeds, draws[i], scores);
      if replicate.Rejected? {
        return Rejected;
      }
      replicates := replicates + [replicate.value];
    }
    if draws == [] {
      return Rejected;
    }
    assert replicates == Replicates(tasks, strata, seeds, draws, scores);
    PercentileBounds(replicates, 0.0, 1.0, 0.025, 0.975);
    PercentileExists(replicates, 0.025);
    PercentileExists(replicates, 0.975);
    r := Ok((Percentile(replicates, 0.025).value, Percentile(replicates, 0.975).value));
  }

  lemma PercentileExists(values: seq<real>, f: real)
    requires values != [] && 0.0 <= f <= 1.0
    ensures Percentile(values, f).Ok?
  {
  }

  function Replicates(
    tasks: seq<Task>, strata: seq<Id>, seeds: seq<Id>, draws: seq<Draw>, scores: map<(Id, Id), real>)
    : (r: seq<real>)
    requires tasks != [] && ScoresOk(scores, tasks, seeds) && forall d :: d in draws ==> DrawOk(d, tasks, seeds)
    ensures |r| == |draws|
  {
    seq(|draws|, i requires 0 <= i < |draws| => assert draws[i] in draws;
                                                ReplicateOf(tasks, strata, seeds, draws[i], scores))
  }

  // ---------------------------------------------------------------------------------------
  // Equal weights resample nothing

  predicate Uniform(draw: Draw, tasks: seq<Task>, seeds: seq<Id>, a: real, b: real) {
    && (forall t :: t in tasks ==> t.cluster in draw.cluster && draw.cluster[t.cluster] == a)
    && (forall s :: s in seeds ==> s in draw.seed && draw.seed[s] == b)
  }

  function Rows(tasks: seq<Task>, seeds: seq<Id>, scores: map<(Id, Id), real>): (r: seq<seq<real>>)
    requires ScoresOk(scores, tasks, seeds)
    ensures |r| == |tasks| && Table(r, |seeds|)
  {
    seq(|tasks|, i requires 0 <= i < |tasks| => Row(seeds, scores, tasks[i].id))
  }

  /** The unweighted total of every task. */
  function Totals(tasks: seq<Task>, seeds: seq<Id>, scores: map<(Id, Id), real>): (m: map<Id, real>)
    requires ScoresOk(scores, tasks, seeds)
    ensures forall t :: t in tasks ==> t.id in m && m[t.id] == Sum(Row(seeds, scores, t.id))
  {
    map t: Task | t in tasks :: t.id := Sum(Row(seeds, scores, t.id))
  }

  lemma {:induction false} UniformDot(weights: seq<real>, row: seq<real>, b: real)
    requires |weights| == |row| && forall i :: 0 <= i < |weights| ==> weights[i] == b
    ensures Dot(weights, row) == Times(b, Sum(row)) && Sum(weights) == Times(b, |weights| as real)
    decreases |weights|
  {
    hide Times;
    if weights == [] {
      TimesAdds(b, 0.0, 0.0);
    } else {
      var n := |weights| - 1;
      UniformDot(weights[..n], row[..n], b);
      TimesAdds(b, Sum(row[..n]), row[n]);
      TimesAdds(b, n as real, 1.0);
      TimesOne(b);
    }
  }

  lemma TimesOne(c: real)
    ensures Times(c, 1.0) == c
  {
  }

  /** What one task adds to the two sums of its stratum under equal weights. */
  lemma UniformTask(t: Task, seeds: seq<Id>, draw: Draw, scores: map<(Id, Id), real>, a: real, b: real)
    requires DrawOk(draw, [t], seeds) && ScoresOk(scores, [t], seeds) && Uniform(draw, [t], seeds, a, b)
    ensures Times(draw.cluster[t.cluster], Dot(SeedWeights(seeds, draw), Row(seeds, scores, t.id)))
         == Times(Times(a, b), Sum(Row(seeds, scores, t.id)))
    ensures Times(draw.cluster[t.cluster], Sum(SeedWeights(seeds, draw))) == Times(Times(a, b), |seeds| as real)
  {
    hide Sum, Dot, Times;
    assert t in [t];
    UniformDot(SeedWeights(seeds, draw), Row(seeds, scores, t.id), b);
    TimesTwice(a, b, Sum(Row(seeds, scores, t.id)));
    TimesTwice(a, b, |seeds| as real);
  }

  lemma {:induction false} UniformStratum(
    tasks: seq<Task>, name: Id, seeds: seq<Id>, draw: Draw, scores: map<(Id, Id), real>, totals: map<Id, real>,
    a: real, b: real)
    requires DrawOk(draw, tasks, seeds) && ScoresOk(scores, tasks, seeds) && Uniform(draw, tasks, seeds, a, b)
    requires forall t :: t in tasks ==> t.id in totals && totals[t.id] == Sum(Row(seeds, scores, t.id))
    ensures StratumTotal(tasks, name, seeds, draw, scores) == Times(Times(a, b), Sum(ScoresOf(tasks, totals, name)))
    ensures StratumWeight(tasks, name, seeds, draw) == Times(Times(a, b), (Members(tasks, name) * |seeds|) as real)
    decreases |tasks|
  {
    hide Sum, Dot, Times, StratumTotal, StratumWeight, Members;
    EmptySum();
    var c := Times(a, b);
    if tasks == [] {
      NoTasksYet(name, seeds, draw, scores);
      TimesAdds(c, 0.0, 0.0);
    } else {
      var n := |tasks| - 1;
      var t, before, scored := tasks[n], Members(tasks[..n], name), ScoresOf(tasks[..n], totals, name);
      assert t in tasks && tasks[..n + 1] == tasks;
      UniformStratum(tasks[..n], name, seeds, draw, scores, totals, a, b);
      StratumStep(tasks, n, name, seeds, draw, scores);
      if t.slice == name {
        UniformTask(t, seeds, draw, scores, a, b);
        SumAppend(scored, totals[t.id]);
        TimesAdds(c, Sum(scored), totals[t.id]);
        TimesAdds(c, (before * |seeds|) as real, |seeds| as real);
        OneMore(before, |seeds|);
      }
    }
  }

  lemma OneMore(n: nat, k: nat)
    ensures (n * k) as real + k as real == ((n + 1) * k) as real
  {
  }

  lemma CancelWeights(c: real, x: real, n: nat, k: nat)
    requires c > 0.0 && n > 0 && k > 0
    ensures Times(Ratio(Times(c, x), Times(c, (n * k) as real)), n as real) == x / k as real
  {
    var m, y := n as real, k as real;
    assert (n * k) as real == m * y;
    MultiplyPositive(m, y);
    MultiplyPositive(c, m * y);
    var q := x / y;
    assert q * y == x;
    Regroup(c, q, m, y);
    QuotientIs(c * x, c * (m * y), q / m);
    assert q / m * m == q;
  }

  lemma MultiplyPositive(x: real, y: real)
    requires x > 0.0 && y > 0.0
    ensures x * y > 0.0
  {
  }

  lemma Regroup(c: real, q: real, m: real, y: real)
    requires m > 0.0
    ensures q / m * (c * (m * y)) == c * (q * y)
  {
    var p := q / m;
    assert p * m == q;
    assert p * (c * (m * y)) == c * (p * m * y);
  }

  lemma AddQuotients(x: real, y: real, d: real)
    requires d > 0.0
    ensures x / d + y / d == (x + y) / d
  {
  }

  lemma {:induction false} UniformStrata(
    tasks: seq<Task>, strata: seq<Id>, seeds: seq<Id>, draw: Draw, scores: map<(Id, Id), real>,
    totals: map<Id, real>, a: real, b: real)
    requires DrawOk(draw, tasks, seeds) && ScoresOk(scores, tasks, seeds) && Uniform(draw, tasks, seeds, a, b)
    requires seeds != [] && a > 0.0 && b > 0.0
    requires forall name :: name in strata ==> Members(tasks, name) > 0
    requires forall t :: t in tasks ==> t.id in totals && totals[t.id] == Sum(Row(seeds, scores, t.id))
    ensures StrataTotal(tasks, strata, seeds, draw, scores) == SliceTotals(strata, tasks, totals) / |seeds| as real
    decreases |strata|
  {
    hide Sum, Members, StratumTotal, StratumWeight, Ratio, ScoresOf, Times;
    if strata != [] {
      var n := |strata| - 1;
      var name := strata[n];
      UniformStrata(tasks, strata[..n], seeds, draw, scores, totals, a, b);
      UniformStratum(tasks, name, seeds, draw, scores, totals, a, b);
      TimesSign(a, b);
      assert name in strata;
      var total := Sum(ScoresOf(tasks, totals, name));
      CancelWeights(Times(a, b), total, Members(tasks, name), |seeds|);
      var before := SliceTotals(strata[..n], tasks, totals);
      AddQuotients(before, total, |seeds| as real);
    }
  }

  lemma {:induction false} UniformDrawsStratum(tasks: seq<Task>, name: Id, draw: Draw, a: real)
    requires a > 0.0 && forall t :: t in tasks ==> t.cluster in draw.cluster && draw.cluster[t.cluster] == a
    requires Members(tasks, name) > 0
    ensures StratumDrawn(tasks, name, draw)
  {
    var n := |tasks| - 1;
    assert tasks[n] in tasks;
    if tasks[n].slice != name {
      UniformDrawsStratum(tasks[..n], name, draw, a);
      var i :| 0 <= i < n && tasks[..n][i].slice == name;
      assert tasks[i] == tasks[..n][i] && tasks[i] in tasks;
    }
  }

  /** A draw that weights everything equally gives the headline score back, whatever the strata. */
  lemma UniformDrawGivesHeadline(
    tasks: seq<Task>, strata: seq<Id>, seeds: seq<Id>, draw: Draw, scores: map<(Id, Id), real>, a: real, b: real)
    requires tasks != [] && seeds != [] && Lists(strata, tasks) && a > 0.0 && b > 0.0
    requires forall name :: name in strata ==> Members(tasks, name) > 0
    requires DrawOk(draw, tasks, seeds) && ScoresOk(scores, tasks, seeds) && Uniform(draw, tasks, seeds, a, b)
    ensures Replicable(tasks, strata, seeds, draw)
    ensures ReplicateOf(tasks, strata, seeds, draw, scores) == Headline(Rows(tasks, seeds, scores), |seeds|)
  {
    hide Sum, Members, StrataTotal, SliceTotals, StratumDrawn;
    assert SeedWeights(seeds, draw)[0] > 0.0;
    forall name | name in strata ensures StratumDrawn(tasks, name, draw) {
      UniformDrawsStratum(tasks, name, draw, a);
    }
    var totals, rows := Totals(tasks, seeds, scores), Rows(tasks, seeds, scores);
    UniformStrata(tasks, strata, seeds, draw, scores, totals, a, b);
    SlicesPartition(strata, tasks, totals);
    forall i | 0 <= i < |tasks| ensures AllScores(tasks, totals)[i] == RowSums(rows)[i] {
      assert tasks[i] in tasks;
    }
    assert AllScores(tasks, totals) == RowSums(rows);
    SumScaled(RowSums(rows), |seeds| as real);
  }
}
