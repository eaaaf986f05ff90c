/**
  The static contamination audit: it passes exactly on clean inputs, every training and
  evaluation pair is then compared, and the flag it computes is the one its report's validator
  recomputes. Digests stand for the values digested; tokenisation is an input.
 */
module CorpusAudit {
  import opened Common
  import opened Arithmetic

  type Id = nat
  type Token = nat

  datatype Split = Train | Development | Calibration | Validation | SealedEval | Benchmark

  /** One loaded source; `tokens` is `None` when tokenisation fails. */
  datatype Source = Source(
    corpus: Id, id: Id, split: Split, content: Id, contamination: Id, lineage: Id, clone: Id, family: Id,
    tokens: Option<seq<Token>>)

  datatype Policy = Policy(
    ngramSize: nat, minimumTokens: nat, jaccardThreshold: real, containmentThreshold: real, denied: set<Id>)

  predicate PolicyValid(p: Policy) {
    && 3 <= p.ngramSize <= 7 && 16 <= p.minimumTokens && p.ngramSize <= p.minimumTokens
    && 0.0 < p.jaccardThreshold && 0.0 < p.containmentThreshold
  }

  const MAX_COMPARISONS := 1_000_000

  datatype Code =
    | DuplicateSourceId | ExactDigestDuplicate | NoTrainingSources | ComparisonBudgetExceeded
    | CrossContaminationGroup | CrossLineageGroup | CrossCloneGroup | RepositoryDenied | CrossRepositoryFamily
    | TokenizationError | InsufficientTokens | NormalizedTokenDuplicate | FuzzyContamination

  datatype Similarity = Similarity(
    training: (Id, Id), evaluation: (Id, Id), jaccard: real, containment: real, blocking: bool)

  datatype Report = Report(
    total: nat, scanned: nat, eligible: nat, expected: nat, comparisons: seq<Similarity>,
    issues: seq<Code>, passed: bool)

  function Ref(s: Source): (Id, Id) {
    (s.corpus, s.id)
  }

  predicate Training(s: Source) {
    s.split == Train
  }

  /** The frozen manifests: a benchmark and a candidate corpus, each non-empty, with the
      benchmark split in the benchmark only, and source ids unique within each. */
  predicate InputsOk(sources: seq<Source>) {
    && (forall i, j :: 0 <= i < j < |sources| ==> Ref(sources[i]) != Ref(sources[j]))
    && (exists i :: 0 <= i < |sources| && sources[i].split == Benchmark)
    && (exists i :: 0 <= i < |sources| && sources[i].split != Benchmark)
  }

  // ---------------------------------------------------------------------------------------
  // N-grams and similarity

  function Ngrams(tokens: seq<Token>, size: nat): set<seq<Token>> {
    if |tokens| < size then {}
    else set i | 0 <= i <= |tokens| - size :: Window(tokens, i, size)
  }

  function Window(tokens: seq<Token>, i: nat, size: nat): seq<Token>
    requires i + size <= |tokens|
  {
    tokens[i..i + size]
  }

  lemma EnoughTokensGiveNgrams(tokens: seq<Token>, size: nat)
    requires size <= |tokens|
    ensures Ngrams(tokens, size) != {}
  {
    assert Window(tokens, 0, size) in Ngrams(tokens, size);
  }

  function Smaller(a: nat, b: nat): nat {
    if a <= b then a else b
  }

  /** The similarity divisions never divide by zero. */
  lemma DenominatorsArePositive(a: set<seq<Token>>, b: set<seq<Token>>)
    requires a != {} && b != {}
    ensures |a + b| > 0 && Smaller(|a|, |b|) > 0 && Smaller(|a|, |b|) <= |a + b|
    ensures |a * b| <= Smaller(|a|, |b|)
  {
    SubsetSize(a, a + b);
    SubsetSize(b, a + b);
    SubsetSize(a * b, a);
    SubsetSize(a * b, b);
  }

  function Jaccard(a: set<seq<Token>>, b: set<seq<Token>>): real
    requires a != {} && b != {}
  {
    DenominatorsArePositive(a, b);
    |a * b| as real / |a + b| as real
  }

  function Containment(a: set<seq<Token>>, b: set<seq<Token>>): real
    requires a != {} && b != {}
  {
    DenominatorsArePositive(a, b);
    |a * b| as real / Smaller(|a|, |b|) as real
  }

  lemma SmallerDenominator(x: real, m: real, u: real)
    requires 0.0 <= x && 0.0 < m <= u && x <= m
    ensures 0.0 <= x / u <= x / m <= 1.0
  {
    var p, q := x / u, x / m;
    assert p * u == x && q * m == x;
    assert p < 0.0 ==> p * u < 0.0;
    assert q > 1.0 ==> q * m > m;
    assert p > q ==> p * m > q * m;
    assert p * u >= p * m;
  }

  /** Jaccard similarity never exceeds containment; both lie between zero and one. */
  lemma JaccardBelowContainment(a: set<seq<Token>>, b: set<seq<Token>>)
    requires a != {} && b != {}
    ensures 0.0 <= Jaccard(a, b) <= Containment(a, b) <= 1.0
  {
    DenominatorsArePositive(a, b);
    SmallerDenominator(|a * b| as real, Smaller(|a|, |b|) as real, |a + b| as real);
  }

  // ---------------------------------------------------------------------------------------
  // Clean inputs, declaratively

  predicate Distinct(keys: seq<Id>) {
    forall i, j :: 0 <= i < j < |keys| ==> keys[i] != keys[j]
  }

  predicate Apart(a: seq<Id>, b: seq<Id>) {
    forall i, j :: 0 <= i < |a| && 0 <= j < |b| ==> a[i] != b[j]
  }

  predicate Scannable(s: Source, p: Policy) {
    s.tokens.Some? && |s.tokens.value| >= p.minimumTokens
  }

  /** Both sources were scanned with enough tokens and are below both thresholds. */
  predicate Dissimilar(t: Source, e: Source, p: Policy)
    requires PolicyValid(p) && Scannable(t, p) && Scannable(e, p)
  {
    var a, b := Ngrams(t.tokens.value, p.ngramSize), Ngrams(e.tokens.value, p.ngramSize);
    EnoughTokensGiveNgrams(t.tokens.value, p.ngramSize);
    EnoughTokensGiveNgrams(e.tokens.value, p.ngramSize);
    Jaccard(a, b) < p.jaccardThreshold && Containment(a, b) < p.containmentThreshold
  }

  /** One training and one evaluation source with nothing in common that the audit looks at. */
  predicate PairClean(t: Source, e: Source, p: Policy)
    requires PolicyValid(p) && Scannable(t, p) && Scannable(e, p)
  {
    && t.content != e.content && t.tokens != e.tokens
    && t.contamination != e.contamination && t.lineage != e.lineage && t.clone != e.clone && t.family != e.family
    && Dissimilar(t, e, p)
  }

  function Select(sources: seq<Source>, training: bool): (r: seq<Source>)
    ensures forall s :: s in r <==> s in sources && Training(s) == training
  {
    if sources == [] then []
    else
      var last := sources[|sources| - 1];
      var before := Select(sources[..|sources| - 1], training);
      assert sources == sources[..|sources| - 1] + [last];
      if Training(last) == training then before + [last] else before
  }

  predicate TellsContent(a: Source, b: Source) {
    a.tokens.Some? && a.tokens == b.tokens ==> a.content == b.content
  }

  /** Equal token sequences come only from equal contents. */
  predicate TokensTellContent(sources: seq<Source>) {
    forall i, j :: 0 <= i < |sources| && 0 <= j < |sources| ==> TellsContent(sources[i], sources[j])
  }

  predicate AllScannable(sources: seq<Source>, p: Policy) {
    forall i :: 0 <= i < |sources| ==> Scannable(sources[i], p)
  }

  predicate AllDissimilar(training: seq<Source>, evaluation: seq<Source>, p: Policy)
    requires PolicyValid(p) && AllScannable(training, p) && AllScannable(evaluation, p)
  {
    forall i, j :: 0 <= i < |training| && 0 <= j < |evaluation| ==> Dissimilar(training[i], evaluation[j], p)
  }

  function Ids(s: seq<Source>): seq<Id> { seq(|s|, i requires 0 <= i < |s| => s[i].id) }
  function Contents(s: seq<Source>): seq<Id> { seq(|s|, i requires 0 <= i < |s| => s[i].content) }
  function Contaminations(s: seq<Source>): seq<Id> { seq(|s|, i requires 0 <= i < |s| => s[i].contamination) }
  function Lineages(s: seq<Source>): seq<Id> { seq(|s|, i requires 0 <= i < |s| => s[i].lineage) }
  function Clones(s: seq<Source>): seq<Id> { seq(|s|, i requires 0 <= i < |s| => s[i].clone) }
  function Families(s: seq<Source>): seq<Id> { seq(|s|, i requires 0 <= i < |s| => s[i].family) }

  predicate MetadataClean(sources: seq<Source>, training: seq<Source>, evaluation: seq<Source>, p: Policy) {
    && Distinct(Ids(sources)) && Distinct(Contents(sources))
    && training != [] && |training| * |evaluation| <= MAX_COMPARISONS
    && Apart(Contaminations(training), Contaminations(evaluation))
    && Apart(Lineages(training), Lineages(evaluation)) && Apart(Clones(training), Clones(evaluation))
    && (forall i :: 0 <= i < |training| ==> training[i].family !in p.denied)
    && Apart(Families(training), Families(evaluation))
  }

  /** Everything the audit insists on. */
  predicate Clean(sources: seq<Source>, p: Policy)
    requires PolicyValid(p)
  {
    var training, evaluation := Select(sources, true), Select(sources, false);
    && MetadataClean(sources, training, evaluation, p)
    && AllScannable(sources, p) && TokensTellContent(sources)
    && SelectionScannable(sources, p)
    && AllDissimilar(training, evaluation, p)
  }

  predicate SelectionScannable(sources: seq<Source>, p: Policy) {
    AllScannable(Select(sources, true), p) && AllScannable(Select(sources, false), p)
  }

  // ---------------------------------------------------------------------------------------
  // The audit's steps

  /** One issue per key that occurs more than once. */
  method DuplicateIssues(keys: seq<Id>, code: Code) returns (issues: seq<Code>)
    ensures issues == [] <==> Distinct(keys)
  {
    var groups: map<Id, nat> := map[];
    issues := [];
    for i := 0 to |keys|
      invariant forall k :: k in groups <==> k in keys[..i]
      invariant forall k :: k in groups ==> groups[k] > 0
      invariant (forall k :: k in groups ==> groups[k] == 1) <==> Distinct(keys[..i])
    {
      assert keys[..i + 1] == keys[..i] + [keys[i]];
      DistinctStep(keys, i);
      ghost var before := groups;
      groups := groups[keys[i] := (if keys[i] in groups then groups[keys[i]] else 0) + 1];
      if keys[i] in before {
        assert groups[keys[i]] != 1;
      } else {
        assert forall k :: k in before ==> k in groups && groups[k] == before[k];
      }
    }
    assert keys[..|keys|] == keys;
    var rest := groups.Keys;
    while rest != {}
      invariant rest <= groups.Keys
      invariant issues == [] <==> forall k :: k in groups.Keys - rest ==> groups[k] == 1
      decreases |rest|
    {
      var k :| k in rest;
      rest := rest - {k};
      if groups[k] > 1 {
        issues := issues + [code];
      }
    }
  }

  lemma DistinctStep(keys: seq<Id>, i: nat)
    requires i < |keys|
    ensures Distinct(keys[..i + 1]) <==> Distinct(keys[..i]) && keys[i] !in keys[..i]
  {
  }

  /** One issue per key on both sides. */
  method CrossIssues(training: seq<Id>, evaluation: seq<Id>, code: Code) returns (issues: seq<Code>)
    ensures issues == [] <==> Apart(training, evaluation)
  {
    var both := (set k | k in training) * (set k | k in evaluation);
    issues := [];
    var rest := both;
    while rest != {}
      invariant rest <= both && (issues == [] <==> rest == both)
      decreases |rest|
    {
      var k :| k in rest;
      rest := rest - {k};
      issues := issues + [code];
    }
    if both == {} {
      forall i, j | 0 <= i < |training| && 0 <= j < |evaluation| ensures training[i] != evaluation[j] {
        assert training[i] in training && evaluation[j] in evaluation;
        assert training[i] !in both;
      }
    } else {
      var k :| k in both;
      var i :| 0 <= i < |training| && training[i] == k;
      var j :| 0 <= j < |evaluation| && evaluation[j] == k;
    }
  }

  method DeniedIssues(training: seq<Source>, denied: set<Id>) returns (issues: seq<Code>)
    ensures issues == [] <==> forall i :: 0 <= i < |training| ==> training[i].family !in denied
  {
    issues := [];
    for i := 0 to |training|
      invariant issues == [] <==> forall k :: 0 <= k < i ==> training[k].family !in denied
    {
      if training[i].family in denied {
        issues := issues + [RepositoryDenied];
      }
    }
  }

  /** Everything before tokenisation. */
  method MetadataIssues(sources: seq<Source>, training: seq<Source>, evaluation: seq<Source>, p: Policy)
    returns (issues: seq<Code>)
    ensures issues == [] <==> MetadataClean(sources, training, evaluation, p)
  {
    hide Distinct, Apart;
    var ids := DuplicateIssues(Ids(sources), DuplicateSourceId);
    var contents := DuplicateIssues(Contents(sources), ExactDigestDuplicate);
    issues := ids + contents;
    if training == [] {
      issues := issues + [NoTrainingSources];
    }
    if |training| * |evaluation| > MAX_COMPARISONS {
      issues := issues + [ComparisonBudgetExceeded];
    }
    var a := CrossIssues(Contaminations(training), Contaminations(evaluation), CrossContaminationGroup);
    var b := CrossIssues(Lineages(training), Lineages(evaluation), CrossLineageGroup);
    var c := CrossIssues(Clones(training), Clones(evaluation), CrossCloneGroup);
    var d := DeniedIssues(training, p.denied);
    var e := CrossIssues(Families(training), Families(evaluation), CrossRepositoryFamily);
    issues := issues + a + b + c + d + e;
  }

  /** The scans that succeeded, by reference, in order. */
  method ScanSources(sources: seq<Source>, p: Policy)
    returns (scans: map<(Id, Id), Source>, eligible: nat, issues: seq<Code>)
    requires forall i, j :: 0 <= i < j < |sources| ==> Ref(sources[i]) != Ref(sources[j])
    ensures issues == [] <==> AllScannable(sources, p)
    ensures forall i :: 0 <= i < |sources| && sources[i].tokens.Some? ==>
              Ref(sources[i]) in scans && scans[Ref(sources[i])] == sources[i]
    ensures |scans| <= |sources| && (issues == [] ==> |scans| == |sources|)
    ensures eligible <= |scans| && (issues == [] ==> eligible == |sources|)
  {
    scans, eligible, issues := map[], 0, [];
    for i := 0 to |sources|
      invariant issues == [] <==> forall k :: 0 <= k < i ==> Scannable(sources[k], p)
      invariant forall k :: 0 <= k < i && sources[k].tokens.Some? ==>
                  Ref(sources[k]) in scans && scans[Ref(sources[k])] == sources[k]
      invariant forall k :: i <= k < |sources| ==> Ref(sources[k]) !in scans
      invariant |scans| <= i && (issues == [] ==> |scans| == i)
      invariant eligible <= |scans| && (issues == [] ==> eligible == i)
    {
      var s := sources[i];
      assert Scannable(s, p) <==> s.tokens.Some? && |s.tokens.value| >= p.minimumTokens;
      if s.tokens.None? {
        issues := issues + [TokenizationError];
      } else {
        scans := scans[Ref(s) := s];
        if |s.tokens.value| < p.minimumTokens {
          issues := issues + [InsufficientTokens];
        } else {
          eligible := eligible + 1;
        }
      }
    }
  }

  /** One issue per token sequence shared by different contents. */
  method TokenIssues(sources: seq<Source>) returns (issues: seq<Code>)
    ensures issues == [] <==> TokensTellContent(sources)
  {
    issues := [];
    for i := 0 to |sources|
      invariant issues == [] <==>
                  forall a, b :: 0 <= a < i && 0 <= b < |sources| ==> TellsContent(sources[a], sources[b])
    {
      if exists b :: 0 <= b < |sources| && !TellsContent(sources[i], sources[b]) {
        issues := issues + [NormalizedTokenDuplicate];
      }
    }
  }

  /** Similarity of one pair, and whether it blocks. */
  function Compared(t: Source, e: Source, p: Policy): Similarity
    requires PolicyValid(p) && Scannable(t, p) && Scannable(e, p)
  {
    var a, b := Ngrams(t.tokens.value, p.ngramSize), Ngrams(e.tokens.value, p.ngramSize);
    EnoughTokensGiveNgrams(t.tokens.value, p.ngramSize);
    EnoughTokensGiveNgrams(e.tokens.value, p.ngramSize);
    var jaccard, containment := Jaccard(a, b), Containment(a, b);
    Similarity(Ref(t), Ref(e), jaccard, containment,
               || t.content == e.content || t.tokens == e.tokens
               || jaccard >= p.jaccardThreshold || containment >= p.containmentThreshold)
  }

  function Row(t: Source, evaluation: seq<Source>, p: Policy): (r: seq<Similarity>)
    requires PolicyValid(p) && Scannable(t, p) && AllScannable(evaluation, p)
    ensures |r| == |evaluation|
  {
    seq(|evaluation|, j requires 0 <= j < |evaluation| => Compared(t, evaluation[j], p))
  }

  /** The full comparison matrix, row by row. */
  function Matrix(training: seq<Source>, evaluation: seq<Source>, p: Policy): (r: seq<Similarity>)
    requires PolicyValid(p) && AllScannable(training, p) && AllScannable(evaluation, p)
  {
    if training == [] then []
    else
      Matrix(training[..|training| - 1], evaluation, p) + Row(training[|training| - 1], evaluation, p)
  }

  lemma {:induction false} MatrixHasPair(training: seq<Source>, evaluation: seq<Source>, p: Policy, i: nat, j: nat)
    requires PolicyValid(p) && AllScannable(training, p) && AllScannable(evaluation, p)
    requires i < |training| && j < |evaluation|
    ensures Compared(training[i], evaluation[j], p) in Matrix(training, evaluation, p)
  {
    hide Compared;
    var n := |training| - 1;
    if i < n {
      MatrixHasPair(training[..n], evaluation, p, i, j);
    } else {
      assert Row(training[n], evaluation, p)[j] == Compared(training[i], evaluation[j], p);
    }
  }

  lemma {:induction false} MatrixIsPairs(training: seq<Source>, evaluation: seq<Source>, p: Policy, c: Similarity)
    returns (i: nat, j: nat)
    requires PolicyValid(p) && AllScannable(training, p) && AllScannable(evaluation, p)
    requires c in Matrix(training, evaluation, p)
    ensures i < |training| && j < |evaluation| && c == Compared(training[i], evaluation[j], p)
  {
    hide Compared;
    var n := |training| - 1;
    if c in Row(training[n], evaluation, p) {
      i := n;
      j :| 0 <= j < |evaluation| && Row(training[n], evaluation, p)[j] == c;
    } else {
      i, j := MatrixIsPairs(training[..n], evaluation, p, c);
    }
  }

  lemma {:induction false} MatrixSize(training: seq<Source>, evaluation: seq<Source>, p: Policy)
    requires PolicyValid(p) && AllScannable(training, p) && AllScannable(evaluation, p)
    ensures |Matrix(training, evaluation, p)| == |training| * |evaluation|
  {
    hide Compared;
    if training != [] {
      MatrixSize(training[..|training| - 1], evaluation, p);
      assert |training| * |evaluation| == (|training| - 1) * |evaluation| + |evaluation|;
    }
  }

  /** Different texts that are nevertheless too similar. */
  predicate Contaminates(t: Source, e: Source, p: Policy)
    requires PolicyValid(p) && Scannable(t, p) && Scannable(e, p)
  {
    t.content != e.content && t.tokens != e.tokens && !Dissimilar(t, e, p)
  }

  predicate NoneContaminates(training: seq<Source>, evaluation: seq<Source>, p: Policy)
    requires PolicyValid(p) && AllScannable(training, p) && AllScannable(evaluation, p)
  {
    forall i, j :: 0 <= i < |training| && 0 <= j < |evaluation| ==> !Contaminates(training[i], evaluation[j], p)
  }

  lemma DissimilarMeansNone(training: seq<Source>, evaluation: seq<Source>, p: Policy)
    requires PolicyValid(p) && AllScannable(training, p) && AllScannable(evaluation, p)
    ensures AllDissimilar(training, evaluation, p) ==> NoneContaminates(training, evaluation, p)
  {
  }

  method ComparePairs(training: seq<Source>, evaluation: seq<Source>, p: Policy)
    returns (comparisons: seq<Similarity>, issues: seq<Code>)
    requires PolicyValid(p) && AllScannable(training, p) && AllScannable(evaluation, p)
    ensures comparisons == Matrix(training, evaluation, p)
    ensures issues == [] <==> NoneContaminates(training, evaluation, p)
  {
    hide Contaminates, Compared, Scannable;
    comparisons, issues := [], [];
    for i := 0 to |training|
      invariant comparisons == Matrix(training[..i], evaluation, p)
      invariant issues == [] <==>
                  forall k, j :: 0 <= k < i && 0 <= j < |evaluation| ==> !Contaminates(training[k], evaluation[j], p)
    {
      var row, more := CompareRow(training[i], evaluation, p);
      assert training[..i + 1][..i] == training[..i];
      comparisons := comparisons + row;
      issues := issues + more;
    }
    assert training[..|training|] == training;
  }

  method CompareRow(t: Source, evaluation: seq<Source>, p: Policy) returns (row: seq<Similarity>, issues: seq<Code>)
    requires PolicyValid(p) && Scannable(t, p) && AllScannable(evaluation, p)
    ensures row == Row(t, evaluation, p)
    ensures issues == [] <==> forall j :: 0 <= j < |evaluation| ==> !Contaminates(t, evaluation[j], p)
  {
    hide Compared, Dissimilar, Scannable;
    row, issues := [], [];
    for j := 0 to |evaluation|
      invariant |row| == j && forall k :: 0 <= k < j ==> row[k] == Compared(t, evaluation[k], p)
      invariant issues == [] <==> forall k :: 0 <= k < j ==> !Contaminates(t, evaluation[k], p)
    {
      var e := evaluation[j];
      var c := Compared(t, e, p);
      BlockingExactly(t, e, p);
      row := row + [c];
      var fuzzy := c.jaccard >= p.jaccardThreshold || c.containment >= p.containmentThreshold;
      if fuzzy && t.content != e.content && t.tokens != e.tokens {
        issues := issues + [FuzzyContamination];
      }
    }
  }

  // ---------------------------------------------------------------------------------------
  // The report

  /** What the report validator recomputes: counts that agree, and a flag that needs a
      non-trivial, complete, unblocked comparison matrix as well as no issue. */
  predicate ReportValid(r: Report) {
    && r.scanned <= r.total && r.eligible <= r.scanned && |r.comparisons| <= r.expected
    && (r.passed <==>
          && r.issues == [] && r.total >= 2 && r.expected >= 1
          && r.scanned == r.total && r.eligible == r.total && |r.comparisons| == r.expected
          && forall c :: c in r.comparisons ==> !c.blocking)
  }

  /** Which of the selected sources take part in the matrix. */
  function Eligible(selected: seq<Source>, p: Policy): (r: seq<Source>)
    ensures AllScannable(r, p) && |r| <= |selected|
    ensures AllScannable(selected, p) ==> r == selected
  {
    if selected == [] then []
    else
      var last := selected[|selected| - 1];
      var before := Eligible(selected[..|selected| - 1], p);
      assert selected == selected[..|selected| - 1] + [last];
      if Scannable(last, p) then before + [last] else before
  }

  method Audit(sources: seq<Source>, p: Policy) returns (r: Report)
    requires InputsOk(sources) && PolicyValid(p)
    ensures ReportValid(r)
    ensures r.passed <==> Clean(sources, p)
    ensures r.comparisons == if r.expected > MAX_COMPARISONS then []
                             else Matrix(Eligible(Select(sources, true), p), Eligible(Select(sources, false), p), p)
    ensures r.passed ==> SelectionScannable(sources, p)
                         && r.comparisons == Matrix(Select(sources, true), Select(sources, false), p)
  {
    hide MetadataClean, TokensTellContent, AllDissimilar, NoneContaminates, AllScannable, Matrix, Select, Eligible;
    var training, evaluation := Select(sources, true), Select(sources, false);
    var metadata := MetadataIssues(sources, training, evaluation, p);
    var scans, eligible, scanIssues := ScanSources(sources, p);
    var tokenIssues := TokenIssues(sources);
    var expected := |training| * |evaluation|;
    var comparisons: seq<Similarity>, fuzzy: seq<Code> := [], [];
    if expected <= MAX_COMPARISONS {
      comparisons, fuzzy := ComparePairs(Eligible(training, p), Eligible(evaluation, p), p);
      MatrixSize(Eligible(training, p), Eligible(evaluation, p), p);
      ProductMonotone(|Eligible(training, p)|, |training|, |Eligible(evaluation, p)|, |evaluation|);
    }
    var issues := metadata + scanIssues + tokenIssues + fuzzy;
    var passed := && issues == [] && |scans| == |sources| && eligible == |sources| && |comparisons| == expected
                  && forall c :: c in comparisons ==> !c.blocking;
    r := Report(|sources|, |scans|, eligible, expected, comparisons, issues, passed);
    InputsAreNontrivial(sources);
    if metadata == [] {
      MetadataGives(sources, training, evaluation, p);
    }
    if AllScannable(sources, p) {
      SelectionIsScannable(sources, p);
      if passed {
        PassedMeansClean(sources, p);
      }
      if Clean(sources, p) {
        CleanMeansUnblocked(sources, p);
        DissimilarMeansNone(training, evaluation, p);
      }
    }
  }

  lemma MetadataGives(sources: seq<Source>, training: seq<Source>, evaluation: seq<Source>, p: Policy)
    requires MetadataClean(sources, training, evaluation, p)
    ensures training != [] && |training| * |evaluation| <= MAX_COMPARISONS
  {
  }

  lemma SelectionIsScannable(sources: seq<Source>, p: Policy)
    requires AllScannable(sources, p)
    ensures SelectionScannable(sources, p)
  {
    hide Scannable;
    forall training: bool, i | 0 <= i < |Select(sources, training)|
      ensures Scannable(Select(sources, training)[i], p)
    {
      assert Select(sources, training)[i] in Select(sources, training);
      var k :| 0 <= k < |sources| && sources[k] == Select(sources, training)[i];
    }
  }

  /** What blocking means for a pair. */
  lemma BlockingExactly(t: Source, e: Source, p: Policy)
    requires PolicyValid(p) && Scannable(t, p) && Scannable(e, p)
    ensures !Compared(t, e, p).blocking <==> t.content != e.content && t.tokens != e.tokens && Dissimilar(t, e, p)
    ensures Dissimilar(t, e, p) <==> Compared(t, e, p).jaccard < p.jaccardThreshold
                                     && Compared(t, e, p).containment < p.containmentThreshold
  {
  }

  lemma PassedMeansClean(sources: seq<Source>, p: Policy)
    requires PolicyValid(p) && AllScannable(sources, p) && SelectionScannable(sources, p)
    requires MetadataClean(sources, Select(sources, true), Select(sources, false), p) && TokensTellContent(sources)
    requires forall c :: c in Matrix(Select(sources, true), Select(sources, false), p) ==> !c.blocking
    ensures Clean(sources, p)
  {
    hide MetadataClean, TokensTellContent, Compared, Dissimilar, Matrix, Scannable;
    var training, evaluation := Select(sources, true), Select(sources, false);
    forall i, j | 0 <= i < |training| && 0 <= j < |evaluation| ensures Dissimilar(training[i], evaluation[j], p) {
      MatrixHasPair(training, evaluation, p, i, j);
      BlockingExactly(training[i], evaluation[j], p);
    }
  }

  /** A pass covers every pair: compared, and clean in every respect. */
  lemma CleanPair(sources: seq<Source>, p: Policy, t: Source, e: Source)
    requires PolicyValid(p) && Clean(sources, p) && t in sources && e in sources && Training(t) && !Training(e)
    ensures Scannable(t, p) && Scannable(e, p) && PairClean(t, e, p)
    ensures Compared(t, e, p) in Matrix(Select(sources, true), Select(sources, false), p)
  {
    hide MetadataClean, TokensTellContent, Compared, Dissimilar, Matrix, Scannable;
    var training, evaluation := Select(sources, true), Select(sources, false);
    assert t in training && e in evaluation;
    var i :| 0 <= i < |training| && training[i] == t;
    var j :| 0 <= j < |evaluation| && evaluation[j] == e;
    assert Scannable(training[i], p) && Scannable(evaluation[j], p);
    MatrixHasPair(training, evaluation, p, i, j);
    GroupsApart(sources, training, evaluation, p, i, j);
    assert t != e;
    DifferentText(sources, training, evaluation, p, t, e);
    assert Dissimilar(training[i], evaluation[j], p);
  }

  lemma DifferentText(sources: seq<Source>, training: seq<Source>, evaluation: seq<Source>, p: Policy,
                      t: Source, e: Source)
    requires MetadataClean(sources, training, evaluation, p) && TokensTellContent(sources)
    requires t in sources && e in sources && t != e && Scannable(t, p)
    ensures t.content != e.content && t.tokens != e.tokens
  {
    hide Apart;
    ContentsDiffer(sources, t, e);
    var a :| 0 <= a < |sources| && sources[a] == t;
    var b :| 0 <= b < |sources| && sources[b] == e;
    assert TellsContent(sources[a], sources[b]);
  }

  lemma GroupsApart(sources: seq<Source>, training: seq<Source>, evaluation: seq<Source>, p: Policy, i: nat, j: nat)
    requires MetadataClean(sources, training, evaluation, p) && i < |training| && j < |evaluation|
    ensures var (t, e) := (training[i], evaluation[j]);
            t.contamination != e.contamination && t.lineage != e.lineage && t.clone != e.clone && t.family != e.family
  {
    assert Contaminations(training)[i] != Contaminations(evaluation)[j];
    assert Lineages(training)[i] != Lineages(evaluation)[j];
    assert Clones(training)[i] != Clones(evaluation)[j];
    assert Families(training)[i] != Families(evaluation)[j];
  }

  lemma ContentsDiffer(sources: seq<Source>, t: Source, e: Source)
    requires Distinct(Contents(sources)) && t in sources && e in sources && t != e
    ensures t.content != e.content
  {
    var i :| 0 <= i < |sources| && sources[i] == t;
    var j :| 0 <= j < |sources| && sources[j] == e;
    assert Contents(sources)[i] == t.content && Contents(sources)[j] == e.content;
  }

  lemma CleanMeansUnblocked(sources: seq<Source>, p: Policy)
    requires PolicyValid(p) && Clean(sources, p)
    ensures forall c :: c in Matrix(Select(sources, true), Select(sources, false), p) ==> !c.blocking
  {
    hide MetadataClean, TokensTellContent, Compared, Matrix, Scannable, Dissimilar;
    var training, evaluation := Select(sources, true), Select(sources, false);
    forall c | c in Matrix(training, evaluation, p) ensures !c.blocking {
      var i, j := MatrixIsPairs(training, evaluation, p, c);
      assert training[i] in training && evaluation[j] in evaluation;
      CleanPair(sources, p, training[i], evaluation[j]);
      BlockingExactly(training[i], evaluation[j], p);
    }
  }

  lemma ProductMonotone(a: nat, b: nat, c: nat, d: nat)
    requires a <= b && c <= d
    ensures a * c <= b * d
  {
    assert a * c <= b * c;
    assert b * c <= b * d;
  }

  lemma InputsAreNontrivial(sources: seq<Source>)
    requires InputsOk(sources)
    ensures |sources| >= 2 && Select(sources, false) != []
    ensures Select(sources, true) != [] ==> |Select(sources, true)| * |Select(sources, false)| >= 1
  {
    var i :| 0 <= i < |sources| && sources[i].split == Benchmark;
    assert sources[i] in Select(sources, false);
    var j :| 0 <= j < |sources| && sources[j].split != Benchmark;
    assert i != j;
    if Select(sources, true) != [] {
      ProductMonotone(1, |Select(sources, true)|, 1, |Select(sources, false)|);
    }
  }
}
