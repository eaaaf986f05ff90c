/**
  Which attempt records a score may be computed from: the membership check over sets and
  dictionaries, and the complete grid of tasks, training seeds and samples that scoring
  insists on.
 */
module SampleGrid {
  import opened Common
  import opened Arithmetic
  import PassAtK
  import S = Scoring

  type Id = nat

  /** The fields aggregation compares; `matches` sums up the frozen task metadata and the
      checkpoint identity. */
  datatype Record = Record(
    task: Id, seed: Id, sample: nat, turn: nat, episode: Id, request: Id, parent: Option<Id>, replay: Id,
    generation: Id, matches: bool, comparable: bool, success: bool)

  /** Task, training seed, sample. */
  type Key = (Id, Id, nat)

  function KeyOf(r: Record): Key {
    (r.task, r.seed, r.sample)
  }

  /** Generation seeds by training seed. */
  type Plans = map<Id, seq<Id>>

  // ---------------------------------------------------------------------------------------
  // Membership, declaratively

  predicate Belongs(r: Record, tasks: set<Id>, plans: Plans) {
    && r.task in tasks && r.matches && r.seed in plans
    && (r.turn == 0 ==> r.sample < |plans[r.seed]| && r.generation == plans[r.seed][r.sample])
  }

  predicate Compatible(a: Record, b: Record) {
    && (KeyOf(a), a.turn) != (KeyOf(b), b.turn)
    && a.request != b.request && a.replay != b.replay
    && (a.turn == 0 && b.turn == 0 ==> (a.task, a.seed, a.generation) != (b.task, b.seed, b.generation))
    && (KeyOf(a) == KeyOf(b) ==> a.episode == b.episode)
  }

  predicate AllCompatible(records: seq<Record>) {
    forall i, j :: 0 <= i < j < |records| ==> Compatible(records[i], records[j])
  }

  predicate AllBelong(records: seq<Record>, tasks: set<Id>, plans: Plans) {
    forall i :: 0 <= i < |records| ==> Belongs(records[i], tasks, plans)
  }

  /** `p` is the turn before `r` in the same sample, and `r` names its request as parent. */
  predicate Precedes(p: Record, r: Record) {
    KeyOf(p) == KeyOf(r) && p.turn + 1 == r.turn && r.parent == Some(p.request)
  }

  predicate Linked(records: seq<Record>) {
    forall i :: 0 <= i < |records| ==>
      records[i].turn == 0 || exists j :: 0 <= j < |records| && Precedes(records[j], records[i])
  }

  /** Every record belongs, no two clash, and every episode is a contiguous linked chain. */
  predicate Member(records: seq<Record>, tasks: set<Id>, plans: Plans) {
    AllBelong(records, tasks, plans) && AllCompatible(records) && Linked(records)
  }

  // ---------------------------------------------------------------------------------------
  // Episodes

  function Group(records: seq<Record>, key: Key): (g: seq<Record>)
    ensures forall r :: r in g <==> r in records && KeyOf(r) == key
  {
    if records == [] then []
    else
      var last := records[|records| - 1];
      var before := Group(records[..|records| - 1], key);
      assert records == records[..|records| - 1] + [last];
      if KeyOf(last) == key then before + [last] else before
  }

  predicate DistinctTurns(g: seq<Record>) {
    forall i, j :: 0 <= i < j < |g| ==> g[i].turn != g[j].turn
  }

  predicate Climbing(g: seq<Record>) {
    forall i, j :: 0 <= i < j < |g| ==> g[i].turn < g[j].turn
  }

  function PlaceByTurn(g: seq<Record>, r: Record): (s: seq<Record>)
    requires Climbing(g) && forall x :: x in g ==> x.turn != r.turn
    ensures Climbing(s) && |s| == |g| + 1 && forall x :: x in s <==> x in g || x == r
  {
    if g == [] then [r]
    else
      var last := g[|g| - 1];
      assert g == g[..|g| - 1] + [last];
      if last.turn < r.turn then g + [r]
      else
        var s := PlaceByTurn(g[..|g| - 1], r);
        assert forall i :: 0 <= i < |s| ==> s[i].turn < last.turn by {
          forall i | 0 <= i < |s| ensures s[i].turn < last.turn {
            assert s[i] in s;
            if s[i] != r {
              var k :| 0 <= k < |g| - 1 && g[k] == s[i];
            }
          }
        }
        s + [last]
  }

  function SortByTurn(g: seq<Record>): (s: seq<Record>)
    requires DistinctTurns(g)
    ensures Climbing(s) && |s| == |g| && SameElements(g, s)
  {
    if g == [] then []
    else
      var n := |g| - 1;
      assert g == g[..n] + [g[n]];
      var before := SortByTurn(g[..n]);
      assert forall x :: x in before ==> x.turn != g[n].turn by {
        forall x | x in before ensures x.turn != g[n].turn {
          assert x in g[..n];
          var k :| 0 <= k < n && g[k] == x;
        }
      }
      PlaceByTurn(before, g[n])
  }

  /** Turns counted from zero without a gap, each linked to the one before. */
  predicate Chain(s: seq<Record>) {
    forall k :: 0 <= k < |s| ==> s[k].turn == k && (k == 0 || s[k].parent == Some(s[k - 1].request))
  }

  predicate HasParent(g: seq<Record>, r: Record) {
    exists k :: 0 <= k < |g| && g[k].turn + 1 == r.turn && r.parent == Some(g[k].request)
  }

  predicate GroupLinked(g: seq<Record>) {
    forall r :: r in g ==> r.turn == 0 || HasParent(g, r)
  }

  ghost predicate SameElements(g: seq<Record>, s: seq<Record>) {
    forall x :: x in s <==> x in g
  }

  /** Checking the sorted list position by position is the same as asking every record for its
      predecessor. */
  lemma ChainExact(g: seq<Record>)
    requires DistinctTurns(g)
    ensures Chain(SortByTurn(g)) <==> GroupLinked(g)
  {
    hide SortByTurn, Chain, GroupLinked;
    var s := SortByTurn(g);
    if Chain(s) {
      ChainIsLinked(g, s);
    }
    if GroupLinked(g) {
      LinkedIsChain(g, s);
    }
  }

  lemma ChainIsLinked(g: seq<Record>, s: seq<Record>)
    requires SameElements(g, s) && Chain(s)
    ensures GroupLinked(g)
  {
    forall r | r in g && r.turn > 0 ensures HasParent(g, r) {
      assert r in s;
      var k :| 0 <= k < |s| && s[k] == r;
      assert s[k - 1] in s && s[k - 1] in g;
      var j :| 0 <= j < |g| && g[j] == s[k - 1];
      assert s[k - 1].turn == k - 1;
    }
  }

  /** In a climbing list the predecessor of a record sits right before it. */
  lemma ParentIsPrevious(g: seq<Record>, s: seq<Record>, k: nat) returns (j: nat)
    requires Climbing(s) && SameElements(g, s) && GroupLinked(g) && k < |s| && s[k].turn > 0
    ensures j < k && s[j].turn + 1 == s[k].turn && s[k].parent == Some(s[j].request)
  {
    hide SameElements, GroupLinked;
    HasItsParent(g, s, s[k]);
    var i :| 0 <= i < |g| && g[i].turn + 1 == s[k].turn && s[k].parent == Some(g[i].request);
    j := Find(g, s, g[i]);
  }

  lemma HasItsParent(g: seq<Record>, s: seq<Record>, r: Record)
    requires SameElements(g, s) && GroupLinked(g) && r in s && r.turn > 0
    ensures HasParent(g, r)
  {
  }

  lemma Find(g: seq<Record>, s: seq<Record>, r: Record) returns (j: nat)
    requires SameElements(g, s) && r in g
    ensures j < |s| && s[j] == r
  {
    assert r in s;
    j :| 0 <= j < |s| && s[j] == r;
  }

  lemma {:induction false} LinkedTurnsAreDense(g: seq<Record>, s: seq<Record>, n: nat)
    requires Climbing(s) && SameElements(g, s) && GroupLinked(g) && n <= |s|
    ensures forall k :: 0 <= k < n ==> s[k].turn == k
  {
    hide SameElements, GroupLinked;
    if n > 0 {
      LinkedTurnsAreDense(g, s, n - 1);
      var k := n - 1;
      if k > 0 {
        assert s[k - 1].turn == k - 1;
      }
      if s[k].turn > 0 {
        var j := ParentIsPrevious(g, s, k);
        assert s[j].turn == j;
      }
    }
  }

  lemma LinkedIsChain(g: seq<Record>, s: seq<Record>)
    requires Climbing(s) && SameElements(g, s) && GroupLinked(g)
    ensures Chain(s)
  {
    hide SameElements, GroupLinked;
    LinkedTurnsAreDense(g, s, |s|);
    forall k | 0 < k < |s| ensures s[k].parent == Some(s[k - 1].request) {
      var j := ParentIsPrevious(g, s, k);
      assert s[j].turn == j;
    }
  }

  // ---------------------------------------------------------------------------------------
  // The membership loop

  /** What the sets and dictionaries hold after the first `n` records. */
  datatype Seen = Seen(
    samples: set<(Key, nat)>, requests: set<Id>, replays: set<Id>, turnZero: set<(Id, Id, Id)>,
    episodes: map<Key, Id>, groups: map<Key, seq<Record>>, order: seq<Key>)

  ghost predicate SetsFit(seen: Seen, records: seq<Record>) {
    && seen.samples == (set r | r in records :: (KeyOf(r), r.turn))
    && seen.requests == (set r | r in records :: r.request)
    && seen.replays == (set r | r in records :: r.replay)
    && seen.turnZero == (set r | r in records && r.turn == 0 :: (r.task, r.seed, r.generation))
  }

  ghost predicate EpisodesFit(seen: Seen, records: seq<Record>) {
    && (forall r :: r in records ==> KeyOf(r) in seen.episodes && seen.episodes[KeyOf(r)] == r.episode)
    && (forall key :: key in seen.episodes ==> exists r :: r in records && KeyOf(r) == key)
  }

  ghost predicate GroupsFit(seen: Seen, records: seq<Record>) {
    && (forall key :: key in seen.groups ==> seen.groups[key] == Group(records, key))
    && (forall key :: key !in seen.groups ==> Group(records, key) == [])
    && (forall key :: key in seen.order <==> key in seen.groups)
  }

  ghost predicate SeenFits(seen: Seen, records: seq<Record>) {
    SetsFit(seen, records) && EpisodesFit(seen, records) && GroupsFit(seen, records)
  }

  /** The record clashes with nothing recorded so far. */
  predicate Admits(seen: Seen, r: Record) {
    && (KeyOf(r), r.turn) !in seen.samples && r.request !in seen.requests && r.replay !in seen.replays
    && (r.turn == 0 ==> (r.task, r.seed, r.generation) !in seen.turnZero)
    && (KeyOf(r) in seen.episodes ==> seen.episodes[KeyOf(r)] == r.episode)
  }

  function Note(seen: Seen, r: Record): Seen {
    var key := KeyOf(r);
    Seen(seen.samples + {(key, r.turn)}, seen.requests + {r.request}, seen.replays + {r.replay},
         if r.turn == 0 then seen.turnZero + {(r.task, r.seed, r.generation)} else seen.turnZero,
         if key in seen.episodes then seen.episodes else seen.episodes[key := r.episode],
         seen.groups[key := (if key in seen.groups then seen.groups[key] else []) + [r]],
         if key in seen.groups then seen.order else seen.order + [key])
  }

  lemma AdmitsExactly(seen: Seen, records: seq<Record>, r: Record)
    requires SeenFits(seen, records)
    ensures Admits(seen, r) <==> forall i :: 0 <= i < |records| ==> Compatible(records[i], r)
  {
  }

  lemma NoteFits(seen: Seen, records: seq<Record>, r: Record)
    requires SeenFits(seen, records) && Admits(seen, r)
    ensures SeenFits(Note(seen, r), records + [r])
  {
    hide SetsFit, EpisodesFit, GroupsFit, Admits, Note;
    NoteSets(seen, records, r);
    NoteEpisodes(seen, records, r);
    NoteGroups(seen, records, r);
  }

  lemma NoteSets(seen: Seen, records: seq<Record>, r: Record)
    requires SetsFit(seen, records)
    ensures SetsFit(Note(seen, r), records + [r])
  {
  }

  lemma NoteEpisodes(seen: Seen, records: seq<Record>, r: Record)
    requires EpisodesFit(seen, records) && Admits(seen, r)
    ensures EpisodesFit(Note(seen, r), records + [r])
  {
  }

  lemma NoteGroups(seen: Seen, records: seq<Record>, r: Record)
    requires GroupsFit(seen, records)
    ensures GroupsFit(Note(seen, r), records + [r])
  {
  }

  method CheckRecords(records: seq<Record>, tasks: set<Id>, plans: Plans) returns (ok: bool, seen: Seen)
    ensures ok <==> AllBelong(records, tasks, plans) && AllCompatible(records)
    ensures ok ==> SeenFits(seen, records)
  {
    hide SeenFits, Admits, Note, Belongs, Compatible;
    seen := Seen({}, {}, {}, {}, map[], map[], []);
    NothingSeen();
    for i := 0 to |records|
      invariant SeenFits(seen, records[..i])
      invariant AllBelong(records[..i], tasks, plans) && AllCompatible(records[..i])
    {
      var r := records[i];
      assert records[..i + 1] == records[..i] + [r];
      AdmitsExactly(seen, records[..i], r);
      if !Belongs(r, tasks, plans) || !Admits(seen, r) {
        return false, seen;
      }
      NoteFits(seen, records[..i], r);
      seen := Note(seen, r);
    }
    assert records[..|records|] == records;
    ok := true;
  }

  lemma NothingSeen()
    ensures SeenFits(Seen({}, {}, {}, {}, map[], map[], []), [])
  {
  }

  lemma {:induction false} GroupHasDistinctTurns(records: seq<Record>, key: Key)
    requires AllCompatible(records)
    ensures DistinctTurns(Group(records, key))
  {
    if records != [] {
      var n := |records| - 1;
      GroupHasDistinctTurns(records[..n], key);
      var before := Group(records[..n], key);
      if KeyOf(records[n]) == key {
        forall i | 0 <= i < |before| ensures before[i].turn != records[n].turn {
          assert before[i] in before;
          var k :| 0 <= k < n && records[k] == before[i];
          assert Compatible(records[k], records[n]);
        }
      }
    }
  }

  lemma LinkedByGroups(records: seq<Record>)
    ensures Linked(records) <==> forall r :: r in records ==> GroupLinked(Group(records, KeyOf(r)))
  {
  }

  /** The whole check accepts exactly the declared shape. */
  method ValidateMembership(records: seq<Record>, tasks: set<Id>, plans: Plans) returns (ok: bool)
    ensures ok <==> Member(records, tasks, plans)
  {
    hide AllBelong, AllCompatible, Linked, GroupLinked, Chain, SetsFit, EpisodesFit, Group;
    var seen;
    ok, seen := CheckRecords(records, tasks, plans);
    if !ok {
      return;
    }
    for i := 0 to |seen.order|
      invariant forall k :: 0 <= k < i ==> GroupLinked(Group(records, seen.order[k]))
    {
      var key := seen.order[i];
      assert key in seen.order;
      GroupHasDistinctTurns(records, key);
      var sorted := SortByTurn(seen.groups[key]);
      ChainExact(seen.groups[key]);
      if !Chain(sorted) {
        NotLinked(records, key);
        return false;
      }
    }
    AllLinked(records, seen);
  }

  lemma AllLinked(records: seq<Record>, seen: Seen)
    requires GroupsFit(seen, records)
    requires forall k :: 0 <= k < |seen.order| ==> GroupLinked(Group(records, seen.order[k]))
    ensures Linked(records)
  {
    hide GroupLinked, Group;
    forall r | r in records ensures GroupLinked(Group(records, KeyOf(r))) {
      assert r in Group(records, KeyOf(r));
      assert KeyOf(r) in seen.order;
    }
    LinkedByGroups(records);
  }

  lemma NotLinked(records: seq<Record>, key: Key)
    requires !GroupLinked(Group(records, key))
    ensures !Linked(records)
  {
  }

  // ---------------------------------------------------------------------------------------
  // Scoring

  /** The turn-zero records of one task and training seed. */
  function Cell(records: seq<Record>, task: Id, seed: Id): (c: seq<Record>)
    ensures forall r :: r in c <==> r in records && r.turn == 0 && r.task == task && r.seed == seed
  {
    if records == [] then []
    else
      var last := records[|records| - 1];
      var before := Cell(records[..|records| - 1], task, seed);
      assert records == records[..|records| - 1] + [last];
      if last.turn == 0 && last.task == task && last.seed == seed then before + [last] else before
  }

  function Samples(cell: seq<Record>): (s: seq<nat>)
    ensures |s| == |cell|
  {
    seq(|cell|, i requires 0 <= i < |cell| => cell[i].sample)
  }

  function Number(x: nat): real {
    x as real
  }

  function Range(n: nat): (r: seq<nat>)
    ensures |r| == n
  {
    seq(n, i requires 0 <= i < n => i)
  }

  predicate AllComparable(cell: seq<Record>) {
    forall i :: 0 <= i < |cell| ==> cell[i].comparable
  }

  predicate CellOk(cell: seq<Record>, n: nat) {
    AllComparable(cell) && |cell| == n && Sorted(Samples(cell), Number) == Range(n)
  }

  function Successes(cell: seq<Record>): (c: nat)
    ensures c <= |cell|
  {
    if cell == [] then 0
    else Successes(cell[..|cell| - 1]) + (if cell[|cell| - 1].success then 1 else 0)
  }

  function CellScore(records: seq<Record>, task: Id, seed: Id, n: nat, k: int): Result<real> {
    var cell := Cell(records, task, seed);
    if CellOk(cell, n) then PassAtK.Estimate(n, Successes(cell), k) else Rejected
  }

  method GroupAttempts(records: seq<Record>) returns (grouped: map<(Id, Id), seq<Record>>)
    ensures forall task: Id, seed: Id :: (task, seed) in grouped ==> grouped[(task, seed)] == Cell(records, task, seed)
    ensures forall task: Id, seed: Id :: (task, seed) !in grouped ==> Cell(records, task, seed) == []
  {
    grouped := map[];
    for i := 0 to |records|
      invariant forall task: Id, seed: Id :: (task, seed) in grouped ==>
                  grouped[(task, seed)] == Cell(records[..i], task, seed)
      invariant forall task: Id, seed: Id :: (task, seed) !in grouped ==> Cell(records[..i], task, seed) == []
    {
      var r := records[i];
      assert records[..i + 1][..i] == records[..i];
      if r.turn == 0 {
        var key := (r.task, r.seed);
        grouped := grouped[key := (if key in grouped then grouped[key] else []) + [r]];
      }
    }
    assert records[..|records|] == records;
  }

  /** Scores by task, each the mean over the training seeds, and by training seed and task. */
  datatype Scores = Scores(byTask: map<Id, real>, bySeed: map<(Id, Id), real>)

  /** Every cell is scored, between zero and one, and every task has the mean of its cells. */
  predicate Consistent(scores: Scores, tasks: seq<S.Task>, seeds: seq<Id>) {
    && S.ScoresOk(scores.bySeed, tasks, seeds) && (tasks != [] ==> seeds != [])
    && forall t :: t in tasks ==>
         t.id in scores.byTask && scores.byTask[t.id] == S.Mean(S.Row(seeds, scores.bySeed, t.id))
  }

  /** What the loop has written for one task. */
  predicate Scored(
    records: seq<Record>, task: Id, seeds: seq<Id>, n: nat, k: int, bySeed: map<(Id, Id), real>)
  {
    forall s :: s in seeds ==> (s, task) in bySeed && CellScore(records, task, s, n, k) == Ok(bySeed[(s, task)])
  }

  /** Scores that agree with the same cells agree with each other. */
  lemma SameRow(
    records: seq<Record>, task: Id, seeds: seq<Id>, n: nat, k: int, a: map<(Id, Id), real>, b: map<(Id, Id), real>)
    requires Scored(records, task, seeds, n, k, a) && Scored(records, task, seeds, n, k, b)
    ensures S.Row(seeds, a, task) == S.Row(seeds, b, task)
  {
    hide CellScore;
    forall j | 0 <= j < |seeds| ensures S.Row(seeds, a, task)[j] == S.Row(seeds, b, task)[j] {
      assert seeds[j] in seeds;
    }
  }

  /** The nested scoring loop, stopping at the first incomplete cell: it succeeds exactly when every
      cell has a score, and then the table holds those scores and their means. */
  method TaskScores(records: seq<Record>, tasks: seq<S.Task>, seeds: seq<Id>, n: nat, k: int)
    returns (r: Result<Scores>)
    ensures r.Ok? <==>
              && (tasks != [] ==> seeds != [])
              && forall t, s :: t in tasks && s in seeds ==> CellScore(records, t.id, s, n, k).Ok?
    ensures r.Ok? ==> Consistent(r.value, tasks, seeds)
    ensures r.Ok? ==> forall t :: t in tasks ==> Scored(records, t.id, seeds, n, k, r.value.bySeed)
  {
    hide Cell, CellScore, S.Mean;
    var grouped := GroupAttempts(records);
    var scores := Scores(map[], map[]);
    for i := 0 to |tasks|
      invariant i > 0 ==> seeds != []
      invariant forall a :: 0 <= a < i ==>
                  && Scored(records, tasks[a].id, seeds, n, k, scores.bySeed) && tasks[a].id in scores.byTask
                  && scores.byTask[tasks[a].id] == S.Mean(S.Row(seeds, scores.bySeed, tasks[a].id))
    {
      var bySeed := ScoreTask(records, grouped, tasks[i].id, seeds, n, k, scores.bySeed);
      if bySeed.Rejected? {
        assert tasks[i] in tasks;
        return Rejected;
      }
      if seeds == [] {
        return Rejected;
      }
      forall a | 0 <= a < i
        ensures S.Row(seeds, bySeed.value, tasks[a].id) == S.Row(seeds, scores.bySeed, tasks[a].id)
      {
        SameRow(records, tasks[a].id, seeds, n, k, bySeed.value, scores.bySeed);
      }
      var mean := MeanOf(S.Row(seeds, bySeed.value, tasks[i].id));
      scores := Scores(scores.byTask[tasks[i].id := mean], bySeed.value);
    }
    CellsInUnit(records, tasks, seeds, n, k, scores.bySeed);
    r := Ok(scores);
  }

  method MeanOf(s: seq<real>) returns (r: real)
    requires s != []
    ensures r == S.Mean(s)
  {
    var sum := S.SumOf(s);
    r := sum / |s| as real;
  }

  lemma CellsInUnit(
    records: seq<Record>, tasks: seq<S.Task>, seeds: seq<Id>, n: nat, k: int, bySeed: map<(Id, Id), real>)
    requires forall a :: 0 <= a < |tasks| ==> Scored(records, tasks[a].id, seeds, n, k, bySeed)
    ensures S.ScoresOk(bySeed, tasks, seeds)
  {
    hide CellOk, PassAtK.Estimate;
    forall t, s | t in tasks && s in seeds ensures (s, t.id) in bySeed && 0.0 <= bySeed[(s, t.id)] <= 1.0 {
      var a :| 0 <= a < |tasks| && tasks[a] == t;
      assert Scored(records, tasks[a].id, seeds, n, k, bySeed);
      PassAtK.EstimateBounds(n, Successes(Cell(records, t.id, s)), k);
    }
  }

  /** All seeds of one task, added to what is there already. */
  method ScoreTask(
    records: seq<Record>, grouped: map<(Id, Id), seq<Record>>, task: Id, seeds: seq<Id>, n: nat, k: int,
    bySeed: map<(Id, Id), real>) returns (r: Result<map<(Id, Id), real>>)
    requires forall seed: Id :: (task, seed) in grouped ==> grouped[(task, seed)] == Cell(records, task, seed)
    requires forall seed: Id :: (task, seed) !in grouped ==> Cell(records, task, seed) == []
    ensures r.Ok? <==> forall s :: s in seeds ==> CellScore(records, task, s, n, k).Ok?
    ensures r.Ok? ==> Scored(records, task, seeds, n, k, r.value)
    ensures r.Ok? ==> forall other: Id :: Scored(records, other, seeds, n, k, bySeed) ==>
              Scored(records, other, seeds, n, k, r.value)
  {
    hide Cell, CellScore;
    var scores := bySeed;
    for j := 0 to |seeds|
      invariant forall b :: 0 <= b < j ==>
                  && (seeds[b], task) in scores
                  && CellScore(records, task, seeds[b], n, k) == Ok(scores[(seeds[b], task)])
      invariant forall other: Id :: Scored(records, other, seeds, n, k, bySeed) ==>
                  Scored(records, other, seeds, n, k, scores)
    {
      var score := ScoreAttempts(records, grouped, task, seeds[j], n, k);
      if score.Rejected? {
        assert seeds[j] in seeds;
        return Rejected;
      }
      scores := scores[(seeds[j], task) := score.value];
    }
    r := Ok(scores);
  }

  /** The headline score of the returned table. */
  function HeadlineOf(scores: Scores, tasks: seq<S.Task>, seeds: seq<Id>): real
    requires tasks != [] && Consistent(scores, tasks, seeds)
  {
    S.Mean(S.AllScores(tasks, scores.byTask))
  }

  /** Both breakdowns of a returned table give its headline score back: the seed scores averaged, and
      the slice scores weighted by their task counts. */
  lemma TableConservesHeadline(scores: Scores, tasks: seq<S.Task>, seeds: seq<Id>, names: seq<Id>)
    requires tasks != [] && Consistent(scores, tasks, seeds) && S.Lists(names, tasks)
    requires forall name :: name in names ==> S.ScoresOf(tasks, scores.byTask, name) != []
    ensures S.MeanOfSeeds(S.Rows(tasks, seeds, scores.bySeed), |seeds|) == HeadlineOf(scores, tasks, seeds)
    ensures S.Weighted(S.SlicesOf(names, tasks, scores.byTask)) / |tasks| as real == HeadlineOf(scores, tasks, seeds)
  {
    hide S.Sum, S.Weighted, S.SlicesOf, S.ScoresOf, S.MeanOfSeeds;
    HeadlineIsTable(scores, tasks, seeds);
    S.SeedsConserveHeadline(S.Rows(tasks, seeds, scores.bySeed), |seeds|);
    S.SlicesConserveHeadline(names, tasks, scores.byTask);
  }

  lemma HeadlineIsTable(scores: Scores, tasks: seq<S.Task>, seeds: seq<Id>)
    requires tasks != [] && seeds != [] && Consistent(scores, tasks, seeds)
    ensures HeadlineOf(scores, tasks, seeds) == S.Headline(S.Rows(tasks, seeds, scores.bySeed), |seeds|)
  {
    hide S.Sum;
    var rows := S.Rows(tasks, seeds, scores.bySeed);
    forall i | 0 <= i < |tasks|
      ensures S.AllScores(tasks, scores.byTask)[i] == S.Scaled(S.RowSums(rows), |seeds| as real)[i]
    {
      assert tasks[i] in tasks;
    }
    assert S.AllScores(tasks, scores.byTask) == S.Scaled(S.RowSums(rows), |seeds| as real);
  }

  /** Equal bootstrap weights reproduce the headline score of a returned table. */
  lemma UniformDrawGivesTableHeadline(
    scores: Scores, tasks: seq<S.Task>, strata: seq<Id>, seeds: seq<Id>, draw: S.Draw, a: real, b: real)
    requires tasks != [] && Consistent(scores, tasks, seeds) && S.Lists(strata, tasks) && a > 0.0 && b > 0.0
    requires forall name :: name in strata ==> S.Members(tasks, name) > 0
    requires S.DrawOk(draw, tasks, seeds) && S.Uniform(draw, tasks, seeds, a, b)
    ensures S.Replicable(tasks, strata, seeds, draw)
    ensures S.ReplicateOf(tasks, strata, seeds, draw, scores.bySeed) == HeadlineOf(scores, tasks, seeds)
  {
    hide S.Sum, S.Members, S.ReplicateOf;
    HeadlineIsTable(scores, tasks, seeds);
    S.UniformDrawGivesHeadline(tasks, strata, seeds, draw, scores.bySeed, a, b);
  }

  method ScoreAttempts(
    records: seq<Record>, grouped: map<(Id, Id), seq<Record>>, task: Id, seed: Id, n: nat, k: int)
    returns (r: Result<real>)
    requires (task, seed) in grouped ==> grouped[(task, seed)] == Cell(records, task, seed)
    requires (task, seed) !in grouped ==> Cell(records, task, seed) == []
    ensures r == CellScore(records, task, seed, n, k)
  {
    hide Cell, Sorted, Samples, Successes, PassAtK.Estimate;
    var attempts := if (task, seed) in grouped then grouped[(task, seed)] else [];
    if exists i :: 0 <= i < |attempts| && !attempts[i].comparable {
      return Rejected;
    }
    if |attempts| != n {
      return Rejected;
    }
    if Sorted(Samples(attempts), Number) != Range(n) {
      return Rejected;
    }
    var successes := CountSuccesses(attempts);
    r := PassAtK.Estimate(n, successes, k);
  }

  method CountSuccesses(cell: seq<Record>) returns (c: nat)
    ensures c == Successes(cell)
  {
    c := 0;
    for i := 0 to |cell|
      invariant c == Successes(cell[..i])
    {
      assert cell[..i + 1][..i] == cell[..i];
      if cell[i].success {
        c := c + 1;
      }
    }
    assert cell[..|cell|] == cell;
  }

  /** A turn-zero record of one grid cell. */
  predicate At(r: Record, task: Id, seed: Id, sample: nat) {
    r.turn == 0 && r.task == task && r.seed == seed && r.sample == sample
  }

  predicate HasSample(cell: seq<Record>, j: nat) {
    exists i :: 0 <= i < |cell| && cell[i].sample == j
  }

  /** Some record fills this grid cell. */
  predicate Filled(records: seq<Record>, task: Id, seed: Id, sample: nat) {
    exists i :: 0 <= i < |records| && At(records[i], task, seed, sample)
  }

  lemma CellCovers(cell: seq<Record>, n: nat)
    requires CellOk(cell, n)
    ensures forall r :: r in cell ==> r.sample < n
    ensures forall j :: 0 <= j < n ==> HasSample(cell, j)
  {
    hide Sorted, AllComparable;
    var samples := Samples(cell);
    assert multiset(samples) == multiset(Range(n));
    forall r | r in cell ensures r.sample < n {
      var i :| 0 <= i < |cell| && cell[i] == r;
      assert samples[i] in multiset(samples);
      assert samples[i] in Range(n);
    }
    forall j | 0 <= j < n ensures HasSample(cell, j) {
      assert Range(n)[j] == j;
      assert j in multiset(Range(n));
      assert j in samples;
      var i :| 0 <= i < |samples| && samples[i] == j;
      assert cell[i].sample == j;
    }
  }

  /** An ascending list of `n` numbers that holds every number below `n` is the range. */
  lemma {:induction false} CoveringIsRange(s: seq<nat>, n: nat)
    requires Ascending(s, Number) && |s| == n && forall j :: 0 <= j < n ==> j in s
    ensures s == Range(n)
  {
    if n > 0 {
      var front, last := s[..n - 1], s[n - 1];
      assert s == front + [last];
      assert n - 1 in s;
      assert last >= n - 1;
      forall j | 0 <= j < n - 1 ensures j in front {
        assert j in s;
      }
      CoveringIsRange(front, n - 1);
      assert last == n - 1 by {
        assert n - 1 !in Range(n - 1);
      }
    }
  }

  /** The sample check accepts a cell exactly when it holds every sample index once, in any
      order. */
  lemma CellOkExactly(cell: seq<Record>, n: nat)
    ensures CellOk(cell, n) <==> AllComparable(cell) && |cell| == n && forall j :: 0 <= j < n ==> HasSample(cell, j)
  {
    hide Sorted, AllComparable;
    if CellOk(cell, n) {
      CellCovers(cell, n);
    }
    if |cell| == n && forall j :: 0 <= j < n ==> HasSample(cell, j) {
      var samples := Samples(cell);
      var s := Sorted(samples, Number);
      forall j | 0 <= j < n ensures j in s {
        assert HasSample(cell, j);
        var i :| 0 <= i < |cell| && cell[i].sample == j;
        assert samples[i] in multiset(samples);
        assert j in multiset(s);
      }
      CoveringIsRange(s, n);
    }
  }

  /** Scoring succeeds only on the complete grid: every turn-zero record lies on it, and every
      task, training seed and sample has exactly one. */
  lemma GridIsComplete(records: seq<Record>, tasks: seq<Id>, seeds: seq<Id>, plans: Plans, n: nat)
    requires Member(records, (set t | t in tasks), plans) && plans.Keys == (set s | s in seeds)
    requires forall t, s :: t in tasks && s in seeds ==> CellOk(Cell(records, t, s), n)
    ensures forall i :: 0 <= i < |records| && records[i].turn == 0 ==>
              records[i].task in tasks && records[i].seed in seeds && records[i].sample < n
    ensures forall t, s, j :: t in tasks && s in seeds && 0 <= j < n ==> Filled(records, t, s, j)
    ensures forall a, b, t, s, j ::
              0 <= a < b < |records| && At(records[a], t, s, j) ==> !At(records[b], t, s, j)
  {
    hide CellOk, Cell, Linked;
    forall i | 0 <= i < |records| && records[i].turn == 0
      ensures records[i].task in tasks && records[i].seed in seeds && records[i].sample < n
    {
      var r := records[i];
      assert Belongs(r, (set t | t in tasks), plans);
      assert r.seed in plans.Keys;
      CellCovers(Cell(records, r.task, r.seed), n);
      assert r in Cell(records, r.task, r.seed);
    }
    forall t, s, j | t in tasks && s in seeds && 0 <= j < n
      ensures Filled(records, t, s, j)
    {
      var cell := Cell(records, t, s);
      CellCovers(cell, n);
      assert HasSample(cell, j);
      var c :| 0 <= c < |cell| && cell[c].sample == j;
      assert cell[c] in cell;
      var i :| 0 <= i < |records| && records[i] == cell[c];
      assert At(records[i], t, s, j);
    }
    forall a, b, t, s, j | 0 <= a < b < |records| && At(records[a], t, s, j) ensures !At(records[b], t, s, j) {
      assert Compatible(records[a], records[b]);
    }
  }
}
