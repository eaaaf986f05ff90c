/**
  The pass@k estimator counts: it is the fraction of k-element sample sets that contain at
  least one success.
 */
module PassAtK {
  import opened Common
  import opened Arithmetic

  /** Binomial coefficients by Pascal's rule. */
  function Choose(n: nat, k: nat): nat {
    if k == 0 then 1 else if n == 0 then 0 else Choose(n - 1, k) + Choose(n - 1, k - 1)
  }

  function Estimate(n: int, c: int, k: int): Result<real> {
    if !(0 <= c <= n) then Rejected
    else if !(1 <= k <= n) then Rejected
    else if n - c < k then Ok(1.0)
    else Ok(Missing(n, c, k))
  }

  /** One minus the fraction of sample sets without a success. */
  function Missing(n: nat, c: nat, k: nat): real
    requires c <= n && k <= n
  {
    ChoosePositive(n, k);
    1.0 - Choose(n - c, k) as real / Choose(n, k) as real
  }

  lemma {:induction false} ChoosePositive(n: nat, k: nat)
    ensures Choose(n, k) > 0 <==> k <= n
  {
    if n > 0 && k > 0 {
      ChoosePositive(n - 1, k);
      ChoosePositive(n - 1, k - 1);
    }
  }

  function Factorial(n: nat): nat {
    if n == 0 then 1 else n * Factorial(n - 1)
  }

  /** Pascal's rule agrees with the factorial quotient. */
  lemma {:induction false} ChooseIsFactorialQuotient(n: nat, k: nat)
    requires k <= n
    ensures Choose(n, k) * (Factorial(k) * Factorial(n - k)) == Factorial(n)
  {
    if k == 0 {
    } else if k == n {
      ChoosePositive(n - 1, n);
      ChooseIsFactorialQuotient(n - 1, n - 1);
      ChooseAll(n);
    } else {
      ChooseIsFactorialQuotient(n - 1, k);
      ChooseIsFactorialQuotient(n - 1, k - 1);
      hide Choose, Factorial;
      Unfold(n, k);
      Unfold(k, 1);
      Unfold(n - k, 1);
      QuotientStep(Choose(n - 1, k), Choose(n - 1, k - 1), k, n - k, Factorial(k - 1), Factorial(n - k - 1),
                   Factorial(n - 1));
    }
  }

  lemma Unfold(n: nat, k: nat)
    requires n > 0 && k > 0
    ensures Choose(n, k) == Choose(n - 1, k) + Choose(n - 1, k - 1)
    ensures Factorial(n) == n * Factorial(n - 1)
  {
  }

  lemma {:induction false} ChooseAll(n: nat)
    ensures Choose(n, n) == 1
  {
    if n > 0 {
      ChooseAll(n - 1);
      ChoosePositive(n - 1, n);
    }
  }

  lemma QuotientStep(a: int, b: int, k: int, m: int, f: int, g: int, product: int)
    requires a * ((k * f) * g) == product && b * (f * (m * g)) == product
    ensures (a + b) * ((k * f) * (m * g)) == (m + k) * product
  {
    var x := (k * f) * (m * g);
    assert x == m * ((k * f) * g);
    assert x == k * (f * (m * g));
    assert a * x == m * product by {
      assert a * (m * ((k * f) * g)) == m * (a * ((k * f) * g));
    }
    assert b * x == k * product by {
      assert b * (k * (f * (m * g))) == k * (b * (f * (m * g)));
    }
    assert (a + b) * x == a * x + b * x;
  }

  // ---------------------------------------------------------------------------------------
  // Counting sample sets

  /** The k-element subsets of `samples`. */
  ghost function SampleSets(samples: set<nat>, k: nat): set<set<nat>> {
    set s | s <= samples && |s| == k
  }

  /** Those with at least one success. */
  ghost function HittingSets(samples: set<nat>, successes: set<nat>, k: nat): set<set<nat>> {
    set s | s <= samples && |s| == k && s * successes != {}
  }

  ghost function Insert(sets: set<set<nat>>, x: nat): set<set<nat>> {
    set s | s in sets :: s + {x}
  }

  lemma {:induction false} InsertKeepsCount(sets: set<set<nat>>, x: nat)
    requires forall s :: s in sets ==> x !in s
    ensures |Insert(sets, x)| == |sets|
    decreases |sets|
  {
    if sets == {} {
      assert Insert(sets, x) == {};
    } else {
      var one :| one in sets;
      var rest := sets - {one};
      InsertKeepsCount(rest, x);
      assert Insert(sets, x) == Insert(rest, x) + {one + {x}};
      forall t | t in rest ensures t + {x} != one + {x} {
        assert t == (t + {x}) - {x} && one == (one + {x}) - {x};
      }
    }
  }

  /** There are n-choose-k of them. */
  lemma {:induction false} CountSampleSets(samples: set<nat>, k: nat)
    ensures |SampleSets(samples, k)| == Choose(|samples|, k)
    decreases |samples|
  {
    hide SampleSets, Insert;
    if k == 0 || samples == {} {
      FewSampleSets(samples, k);
    } else {
      var x :| x in samples;
      var rest := samples - {x};
      CountSampleSets(rest, k);
      CountSampleSets(rest, k - 1);
      SplitOnElement(samples, x, k);
      InsertKeepsCount(SampleSets(rest, k - 1), x);
    }
  }

  lemma FewSampleSets(samples: set<nat>, k: nat)
    ensures k == 0 ==> SampleSets(samples, k) == {{}}
    ensures k > 0 && samples == {} ==> SampleSets(samples, k) == {}
  {
  }

  lemma SplitOnElement(samples: set<nat>, x: nat, k: nat)
    requires x in samples && k > 0
    ensures SampleSets(samples, k) == SampleSets(samples - {x}, k) + Insert(SampleSets(samples - {x}, k - 1), x)
    ensures SampleSets(samples - {x}, k) !! Insert(SampleSets(samples - {x}, k - 1), x)
    ensures forall s :: s in SampleSets(samples - {x}, k - 1) ==> x !in s
  {
    var rest := samples - {x};
    forall s | s in SampleSets(samples, k)
      ensures s in SampleSets(rest, k) + Insert(SampleSets(rest, k - 1), x)
    {
      if x in s {
        assert s == (s - {x}) + {x} && s - {x} in SampleSets(rest, k - 1);
      } else {
        assert s <= rest;
      }
    }
    forall s | s in Insert(SampleSets(rest, k - 1), x) ensures s in SampleSets(samples, k) {
      var t :| t in SampleSets(rest, k - 1) && s == t + {x};
      assert s <= samples && |s| == |t| + 1;
    }
  }

  /** Exactly those sets that avoid every success are missing. */
  lemma CountHittingSets(samples: set<nat>, successes: set<nat>, k: nat)
    requires successes <= samples
    ensures |samples - successes| == |samples| - |successes|
    ensures |HittingSets(samples, successes, k)| == Choose(|samples|, k) - Choose(|samples - successes|, k)
  {
    var failures := samples - successes;
    var all, misses, hits := SampleSets(samples, k), SampleSets(failures, k), HittingSets(samples, successes, k);
    CountSampleSets(samples, k);
    CountSampleSets(failures, k);
    assert |failures| == |samples| - |successes| by {
      assert samples == failures + successes && failures !! successes;
    }
    assert all == misses + hits by {
      forall s | s in all ensures s in misses + hits {
        if s * successes == {} {
          assert s <= failures;
        }
      }
      forall s | s in misses ensures s in all {
      }
    }
    assert misses !! hits;
  }

  /** The estimator is that fraction, whichever samples succeeded. */
  lemma EstimateCountsSubsets(samples: set<nat>, successes: set<nat>, k: nat)
    requires successes <= samples && 1 <= k <= |samples|
    ensures |SampleSets(samples, k)| > 0
    ensures Estimate(|samples|, |successes|, k)
         == Ok(|HittingSets(samples, successes, k)| as real / |SampleSets(samples, k)| as real)
  {
    hide SampleSets, HittingSets, Choose;
    var n, c := |samples|, |successes|;
    SubsetSize(successes, samples);
    CountSampleSets(samples, k);
    CountHittingSets(samples, successes, k);
    ChoosePositive(n, k);
    ChoosePositive(n - c, k);
    ChooseMonotone(n - c, n, k);
    Complement(Choose(n, k) as real, Choose(n - c, k) as real);
    assert (Choose(n, k) - Choose(n - c, k)) as real == Choose(n, k) as real - Choose(n - c, k) as real;
    assert n - c < k ==> Choose(n - c, k) as real / Choose(n, k) as real == 0.0;
  }

  lemma Complement(all: real, miss: real)
    requires all > 0.0
    ensures (all - miss) / all == 1.0 - miss / all
  {
    var q := miss / all;
    assert q * all == miss;
    assert (1.0 - q) * all == all - miss;
    QuotientIs(all - miss, all, 1.0 - q);
  }

  // ---------------------------------------------------------------------------------------
  // Bounds and monotonicity

  lemma {:induction false} ChooseMonotone(m: nat, n: nat, k: nat)
    requires m <= n
    ensures Choose(m, k) <= Choose(n, k)
    decreases n
  {
    if m < n && k > 0 {
      ChooseMonotone(m, n - 1, k);
    }
  }

  /** Defined exactly on valid counts, between zero and one, and one exactly when every sample
      set must contain a success. */
  lemma EstimateBounds(n: int, c: int, k: int)
    ensures Estimate(n, c, k).Ok? <==> 0 <= c <= n && 1 <= k <= n
    ensures Estimate(n, c, k).Ok? ==>
              0.0 <= Estimate(n, c, k).value <= 1.0 && (Estimate(n, c, k).value == 1.0 <==> n - c < k)
  {
    if 0 <= c <= n && 1 <= k <= n && n - c >= k {
      ChooseMonotone(n - c, n, k);
      ChoosePositive(n, k);
      ChoosePositive(n - c, k);
      QuotientBounds(Choose(n - c, k), Choose(n, k));
    }
  }

  lemma QuotientBounds(a: nat, b: nat)
    requires 0 < a <= b
    ensures 0.0 < a as real / b as real <= 1.0
  {
    var x, y := a as real, b as real;
    var q := x / y;
    assert q * y == x;
    assert q > 1.0 ==> q * y > y;
    assert q <= 0.0 ==> q * y <= 0.0;
  }

  /** More successes never lower the estimate. */
  lemma EstimateMonotoneInSuccesses(n: nat, c: nat, d: nat, k: nat)
    requires c <= d <= n && 1 <= k <= n
    ensures Estimate(n, c, k).value <= Estimate(n, d, k).value
  {
    EstimateBounds(n, c, k);
    if n - d >= k {
      ChooseMonotone(n - d, n - c, k);
      ChoosePositive(n, k);
      DivideMonotone(Choose(n - d, k) as real, Choose(n - c, k) as real, Choose(n, k) as real);
    }
  }

  lemma DivideMonotone(a: real, b: real, c: real)
    requires a <= b && c > 0.0
    ensures a / c <= b / c
  {
  }

  /** (k + 1) C(n, k + 1) = (n - k) C(n, k). */
  lemma {:induction false} Absorb(n: nat, k: nat)
    requires k <= n
    ensures (k + 1) * Choose(n, k + 1) == (n - k) * Choose(n, k)
  {
    if n == k {
      ChoosePositive(n, n + 1);
    } else {
      hide Choose;
      Absorb(n - 1, k);
      Unfold(n, k + 1);
      if k == 0 {
        ChooseNone(n);
      } else {
        Absorb(n - 1, k - 1);
        Unfold(n, k);
        AbsorbStep(n, k, Choose(n - 1, k + 1), Choose(n - 1, k), Choose(n - 1, k - 1));
      }
    }
  }

  lemma ChooseNone(n: nat)
    requires n > 0
    ensures Choose(n, 0) == 1 == Choose(n - 1, 0)
  {
  }

  lemma AbsorbStep(n: int, k: int, c: int, b: int, a: int)
    requires (k + 1) * c == (n - 1 - k) * b && k * b == (n - k) * a
    ensures (k + 1) * (c + b) == (n - k) * (b + a)
  {
    assert (k + 1) * (c + b) == (k + 1) * c + (k + 1) * b;
    assert (n - k) * (b + a) == (n - k) * b + (n - k) * a;
    assert (n - 1 - k) * b + (k + 1) * b == n * b;
    assert (n - k) * b + k * b == n * b;
  }

  /** Drawing more samples never lowers the estimate. */
  lemma {:induction false} EstimateMonotoneInK(n: nat, c: nat, k: nat, l: nat)
    requires c <= n && 1 <= k <= l <= n
    ensures Estimate(n, c, k).value <= Estimate(n, c, l).value
    decreases l - k
  {
    if k < l {
      OneMoreDraw(n, c, k);
      EstimateMonotoneInK(n, c, k + 1, l);
    }
  }

  lemma OneMoreDraw(n: nat, c: nat, k: nat)
    requires c <= n && 1 <= k < n
    ensures Estimate(n, c, k).value <= Estimate(n, c, k + 1).value
  {
    EstimateBounds(n, c, k);
    if n - c >= k + 1 {
      var m := n - c;
      Absorb(m, k);
      Absorb(n, k);
      ChoosePositive(n, k);
      ChoosePositive(n, k + 1);
      var a, b, p, q := Choose(m, k), Choose(m, k + 1), Choose(n, k), Choose(n, k + 1);
      CrossMultiply(k + 1, m - k, n - k, a, b, p, q);
      QuotientOrder(b, q, a, p);
    }
  }

  lemma CrossMultiply(j: nat, x: nat, y: nat, a: nat, b: nat, p: nat, q: nat)
    requires j > 0 && x <= y && j * b == x * a && j * q == y * p
    ensures b * p <= a * q
  {
    Replace(j, b, x, a, p);
    Replace(j, q, y, p, a);
    assert p * a == a * p && q * a == a * q;
    Larger(x, y, a * p);
    Cancel(j, b * p, a * q);
  }

  lemma Replace(j: nat, b: nat, x: nat, a: nat, p: nat)
    requires j * b == x * a
    ensures j * (b * p) == x * (a * p)
  {
    assert j * (b * p) == (j * b) * p;
    assert x * (a * p) == (x * a) * p;
  }

  lemma Larger(x: nat, y: nat, c: nat)
    requires x <= y
    ensures x * c <= y * c
  {
  }

  lemma Cancel(j: nat, u: nat, v: nat)
    requires j > 0 && j * u <= j * v
    ensures u <= v
  {
  }

  lemma QuotientOrder(b: nat, q: nat, a: nat, p: nat)
    requires q > 0 && p > 0 && b * p <= a * q
    ensures b as real / q as real <= a as real / p as real
  {
    var x, y := b as real / q as real, a as real / p as real;
    assert x * q as real == b as real && y * p as real == a as real;
    assert (b * p) as real <= (a * q) as real;
    assert x * (q as real * p as real) <= y * (q as real * p as real);
  }
}
