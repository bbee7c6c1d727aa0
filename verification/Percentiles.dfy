/**
 `Percentiles::from_samples` in `crates/spt-benchmark/src/result.rs`, over the real
 numbers: no NaN and no rounding, with the quantiles as exact rationals.
 */
module Percentiles {

  // ----- Sorting -----

  predicate Sorted(s: seq<real>) { forall i, j :: 0 <= i <= j < |s| ==> s[i] <= s[j] }

  function Insert(x: real, s: seq<real>): seq<real>
  {
    if s == [] || x <= s[0] then [x] + s else [s[0]] + Insert(x, s[1..])
  }

  /** What any sort without NaN leaves. */
  function Sort(s: seq<real>): (r: seq<real>)
  {
    if s == [] then [] else Insert(s[0], Sort(s[1..]))
  }

  lemma {:induction false} InsertKeeps(x: real, s: seq<real>)
    ensures multiset(Insert(x, s)) == multiset{x} + multiset(s)
    ensures |Insert(x, s)| == |s| + 1
  {
    if s != [] && s[0] < x {
      InsertKeeps(x, s[1..]);
      assert s == [s[0]] + s[1..];
    }
  }

  lemma {:induction false} InsertSorts(x: real, s: seq<real>)
    requires Sorted(s)
    ensures Sorted(Insert(x, s))
  {
    if s != [] && s[0] < x {
      InsertSorts(x, s[1..]);
      InsertKeeps(x, s[1..]);
      HeadIsLeast(s[0], x, s[1..], Insert(x, s[1..]));
    }
  }

  lemma HeadIsLeast(h: real, x: real, s: seq<real>, t: seq<real>)
    requires h <= x && (forall i :: 0 <= i < |s| ==> h <= s[i]) && multiset(t) == multiset{x} + multiset(s)
    ensures forall i :: 0 <= i < |t| ==> h <= t[i]
  {
    forall i | 0 <= i < |t| ensures h <= t[i] {
      assert t[i] in multiset(t);
      assert t[i] == x || t[i] in s;
    }
  }

  lemma {:induction false} SortSorts(s: seq<real>)
    ensures Sorted(Sort(s)) && multiset(Sort(s)) == multiset(s) && |Sort(s)| == |s|
  {
    if s != [] {
      SortSorts(s[1..]);
      InsertSorts(s[0], Sort(s[1..]));
      InsertKeeps(s[0], Sort(s[1..]));
      assert s == [s[0]] + s[1..];
    }
  }

  /** A sorted sequence is determined by its elements. */
  lemma {:induction false} SortedUnique(a: seq<real>, b: seq<real>)
    requires Sorted(a) && Sorted(b) && multiset(a) == multiset(b)
    ensures a == b
  {
    SameLength(a, b);
    if a != [] {
      SameHead(a, b);
      TailElements(a);
      TailElements(b);
      SortedUnique(a[1..], b[1..]);
      assert a == [a[0]] + a[1..] && b == [b[0]] + b[1..];
    }
  }

  lemma SameLength(a: seq<real>, b: seq<real>)
    requires multiset(a) == multiset(b)
    ensures |a| == |b|
  {
    assert |multiset(a)| == |a| && |multiset(b)| == |b|;
  }

  lemma TailElements(s: seq<real>)
    requires s != []
    ensures multiset(s[1..]) == multiset(s) - multiset{s[0]}
  {
    assert s == [s[0]] + s[1..];
  }

  lemma SameHead(a: seq<real>, b: seq<real>)
    requires Sorted(a) && Sorted(b) && multiset(a) == multiset(b) && a != [] && b != []
    ensures a[0] == b[0]
  {
    assert a[0] in multiset(b) && b[0] in multiset(a);
    assert a[0] in b && b[0] in a;
  }

  /** The sort of the caller's slice, in place. */
  method SortInPlace(a: array<real>)
    modifies a
    ensures a[..] == Sort(old(a[..]))
    ensures Sorted(a[..]) && multiset(a[..]) == multiset(old(a[..]))
  {
    var sorted := Sort(a[..]);
    SortSorts(a[..]);
    forall i | 0 <= i < a.Length {
      a[i] := sorted[i];
    }
    assert a[..] == sorted;
  }

  // ----- The summary -----

  function Sum(s: seq<real>): real
  {
    if s == [] then 0.0 else s[0] + Sum(s[1..])
  }

  function Times(a: real, b: real): real { a * b }

  lemma MulPositive(a: real, b: real)
    requires a > 0.0 && b > 0.0
    ensures a * b > 0.0
  {
  }

  lemma TimesPositive(a: real, b: real)
    requires a > 0.0 && b > 0.0
    ensures Times(a, b) > 0.0
  {
    MulPositive(a, b);
  }

  lemma TimesNegated(a: real, b: real)
    ensures Times(-a, -b) == Times(a, b)
  {
    assert (-a) * (-b) == a * b;
  }

  lemma SquareSign(d: real)
    ensures d != 0.0 ==> Times(d, d) > 0.0
    ensures d == 0.0 ==> Times(d, d) == 0.0
  {
    if d > 0.0 {
      TimesPositive(d, d);
    } else if d < 0.0 {
      TimesPositive(-d, -d);
      TimesNegated(d, d);
    }
  }

  function SquaredDeviations(s: seq<real>, mean: real): real
  {
    if s == [] then 0.0 else Times(s[0] - mean, s[0] - mean) + SquaredDeviations(s[1..], mean)
  }

  function Mean(s: seq<real>): real
    requires s != []
  {
    Sum(s) / (|s| as real)
  }

  /** The square of the sample standard deviation. */
  function Variance(s: seq<real>): real
    requires s != []
  {
    if |s| >= 2 then SquaredDeviations(s, Mean(s)) / (|s| as real - 1.0) else 0.0
  }

  /** Round half away from zero, for a non-negative argument. */
  function Rank(n: nat, q: real): int
    requires n > 0
  {
    ((n - 1) as real * q + 0.5).Floor
  }

  function Pick(sorted: seq<real>, q: real): real
    requires sorted != [] && 0.0 <= q
  {
    RankNonNegative(|sorted|, q);
    var i := Rank(|sorted|, q);
    sorted[if i < |sorted| - 1 then i else |sorted| - 1]
  }

  lemma RankNonNegative(n: nat, q: real)
    requires n > 0 && 0.0 <= q
    ensures Rank(n, q) >= 0
  {
    assert (n - 1) as real * q >= 0.0;
  }

  datatype Summary = Summary(p50: real, p90: real, p95: real, p99: real, p999: real, max: real, min: real,
                             mean: real, variance: real)

  function Summarize(sorted: seq<real>): Summary
  {
    if sorted == [] then Summary(0.0, 0.0, 0.0, 0.0, 0.0, 0.0, 0.0, 0.0, 0.0)
    else
      Summary(Pick(sorted, 0.5), Pick(sorted, 0.9), Pick(sorted, 0.95), Pick(sorted, 0.99), Pick(sorted, 0.999),
              sorted[|sorted| - 1], sorted[0], Mean(sorted), Variance(sorted))
  }

  method FromSamples(samples: array<real>) returns (p: Summary)
    modifies samples
    ensures samples[..] == Sort(old(samples[..]))
    ensures Sorted(samples[..]) && multiset(samples[..]) == multiset(old(samples[..]))
    ensures p == Summarize(Sort(old(samples[..])))
  {
    if samples.Length == 0 {
      p := Summarize([]);
    } else {
      SortInPlace(samples);
      p := Summarize(samples[..]);
    }
  }

  // ----- Ranks -----

  /** The index is the nearest rank, so the clamp never acts. */
  lemma NearestRank(n: nat, q: real)
    requires n > 0 && 0.0 <= q <= 1.0
    ensures 0 <= Rank(n, q) <= n - 1
    ensures Rank(n, q) as real - 0.5 <= (n - 1) as real * q < Rank(n, q) as real + 0.5
  {
    var x := (n - 1) as real;
    assert 0.0 <= x * q <= x;
  }

  lemma RankMonotone(n: nat, q: real, r: real)
    requires n > 0 && 0.0 <= q <= r <= 1.0
    ensures Rank(n, q) <= Rank(n, r)
  {
    assert (n - 1) as real * q <= (n - 1) as real * r;
  }

  lemma PickMonotone(s: seq<real>, q: real, r: real)
    requires s != [] && Sorted(s) && 0.0 <= q <= r <= 1.0
    ensures Pick(s, q) <= Pick(s, r)
    ensures s[0] <= Pick(s, q) && Pick(s, r) <= s[|s| - 1]
  {
    RankMonotone(|s|, q, r);
    NearestRank(|s|, q);
    NearestRank(|s|, r);
  }

  /** min <= p50 <= p90 <= p95 <= p99 <= p999 <= max. */
  lemma SummaryInOrder(samples: seq<real>)
    ensures var p := Summarize(Sort(samples));
            p.min <= p.p50 <= p.p90 <= p.p95 <= p.p99 <= p.p999 <= p.max
  {
    SortSorts(samples);
    var s := Sort(samples);
    if s != [] {
      PickMonotone(s, 0.5, 0.9);
      PickMonotone(s, 0.9, 0.95);
      PickMonotone(s, 0.95, 0.99);
      PickMonotone(s, 0.99, 0.999);
    }
  }

  function CountAtMost(s: seq<real>, x: real): nat
  {
    if s == [] then 0 else (if s[0] <= x then 1 else 0) + CountAtMost(s[1..], x)
  }

  function CountAtLeast(s: seq<real>, x: real): nat
  {
    if s == [] then 0 else (if x <= s[0] then 1 else 0) + CountAtLeast(s[1..], x)
  }

  lemma {:induction false} CountOfInsert(y: real, s: seq<real>, x: real)
    ensures CountAtMost(Insert(y, s), x) == CountAtMost([y], x) + CountAtMost(s, x)
    ensures CountAtLeast(Insert(y, s), x) == CountAtLeast([y], x) + CountAtLeast(s, x)
  {
    var t := Insert(y, s);
    if s == [] || y <= s[0] {
      assert t[1..] == s;
    } else {
      assert t[1..] == Insert(y, s[1..]);
      CountOfInsert(y, s[1..], x);
    }
  }

  lemma {:induction false} CountOfSort(s: seq<real>, x: real)
    ensures CountAtMost(Sort(s), x) == CountAtMost(s, x)
    ensures CountAtLeast(Sort(s), x) == CountAtLeast(s, x)
  {
    if s != [] {
      CountOfSort(s[1..], x);
      CountOfInsert(s[0], Sort(s[1..]), x);
    }
  }

  lemma {:induction false} CountInSorted(s: seq<real>, i: nat)
    requires i < |s| && Sorted(s)
    ensures CountAtMost(s, s[i]) >= i + 1 && CountAtLeast(s, s[i]) >= |s| - i
  {
    if i > 0 {
      CountInSorted(s[1..], i - 1);
    } else {
      CountAllAtLeast(s, s[0]);
    }
  }

  lemma {:induction false} CountAllAtLeast(s: seq<real>, x: real)
    requires forall i :: 0 <= i < |s| ==> x <= s[i]
    ensures CountAtLeast(s, x) == |s|
  {
    if s != [] {
      CountAllAtLeast(s[1..], x);
    }
  }

  /** A percentile is a sample, with as many samples at most and at least it as its
      rank, the nearest to q (n - 1), says. */
  lemma PercentileRank(samples: seq<real>, q: real)
    requires samples != [] && 0.0 <= q <= 1.0
    ensures var x, i := Pick(Sort(samples), q), Rank(|samples|, q);
            && x in samples
            && CountAtMost(samples, x) >= i + 1
            && CountAtLeast(samples, x) >= |samples| - i
  {
    SortSorts(samples);
    var s := Sort(samples);
    NearestRank(|s|, q);
    var i := Rank(|s|, q);
    CountInSorted(s, i);
    CountOfSort(samples, s[i]);
    assert s[i] in multiset(s);
  }

  /** The summary depends on the samples only as a multiset. */
  lemma OrderOfSamplesIrrelevant(a: seq<real>, b: seq<real>)
    requires multiset(a) == multiset(b)
    ensures Summarize(Sort(a)) == Summarize(Sort(b))
  {
    SortSorts(a);
    SortSorts(b);
    SortedUnique(Sort(a), Sort(b));
  }

  // ----- Mean and variance -----

  lemma DivideUnique(x: real, y: real, n: real)
    requires n != 0.0 && x * n == y
    ensures y / n == x
  {
  }

  lemma DivideBounds(lo: real, y: real, hi: real, n: real)
    requires n > 0.0 && lo * n <= y <= hi * n
    ensures lo <= y / n <= hi
  {
    var q := y / n;
    assert q * n == y;
    if q < lo {
      MulPositive(lo - q, n);
    }
    if hi < q {
      MulPositive(q - hi, n);
    }
  }

  lemma {:induction false} SumBounds(s: seq<real>, lo: real, hi: real)
    requires forall i :: 0 <= i < |s| ==> lo <= s[i] <= hi
    ensures lo * (|s| as real) <= Sum(s) <= hi * (|s| as real)
  {
    if s != [] {
      SumBounds(s[1..], lo, hi);
      assert |s| as real == (|s[1..]| as real) + 1.0;
    }
  }

  lemma MeanBetween(s: seq<real>, lo: real, hi: real)
    requires s != [] && forall i :: 0 <= i < |s| ==> lo <= s[i] <= hi
    ensures lo <= Mean(s) <= hi
  {
    SumBounds(s, lo, hi);
    DivideBounds(lo, Sum(s), hi, |s| as real);
  }

  lemma MeanInRange(samples: seq<real>)
    requires samples != []
    ensures var s := Sort(samples);
            s != [] && s[0] <= Mean(s) <= s[|s| - 1]
  {
    SortSorts(samples);
    var s := Sort(samples);
    MeanBetween(s, s[0], s[|s| - 1]);
  }

  lemma {:induction false} DeviationsZeroIff(s: seq<real>, m: real)
    ensures SquaredDeviations(s, m) >= 0.0
    ensures SquaredDeviations(s, m) == 0.0 <==> forall i :: 0 <= i < |s| ==> s[i] == m
  {
    if s != [] {
      DeviationsZeroIff(s[1..], m);
      SquareSign(s[0] - m);
      assert s == [s[0]] + s[1..];
    }
  }

  lemma DivideSign(y: real, n: real)
    requires y >= 0.0 && n > 0.0
    ensures y / n >= 0.0 && (y / n == 0.0 <==> y == 0.0)
  {
  }

  predicate AllEqual(s: seq<real>) { forall i, j :: 0 <= i < j < |s| ==> s[i] == s[j] }

  /** The variance is never negative, and zero exactly when all samples are equal. */
  lemma VarianceZeroIff(s: seq<real>)
    requires |s| >= 2
    ensures Variance(s) >= 0.0
    ensures Variance(s) == 0.0 <==> AllEqual(s)
  {
    var m := Mean(s);
    DeviationsZeroIff(s, m);
    DivideSign(SquaredDeviations(s, m), |s| as real - 1.0);
    if AllEqual(s) {
      MeanBetween(s, s[0], s[0]);
    }
  }

  /** The same of the samples as given, for n >= 2. */
  lemma SpreadZeroIff(samples: seq<real>)
    requires |samples| >= 2
    ensures Sort(samples) != [] && Variance(Sort(samples)) >= 0.0
    ensures Variance(Sort(samples)) == 0.0 <==> AllEqual(samples)
  {
    SortSorts(samples);
    VarianceZeroIff(Sort(samples));
    if AllEqual(samples) {
      SameElementsAllEqual(samples, Sort(samples));
    }
    if AllEqual(Sort(samples)) {
      SameElementsAllEqual(Sort(samples), samples);
    }
  }

  lemma SameElementsAllEqual(a: seq<real>, b: seq<real>)
    requires multiset(a) == multiset(b) && AllEqual(a)
    ensures AllEqual(b)
  {
    forall i, j | 0 <= i < j < |b| ensures b[i] == b[j] {
      assert b[i] in multiset(a) && b[j] in multiset(a);
      assert b[i] in a && b[j] in a;
    }
  }

  // ----- The summary in terms of the samples as given -----

  lemma {:induction false} SumAdds(a: seq<real>, b: seq<real>)
    ensures Sum(a + b) == Sum(a) + Sum(b)
  {
    if a == [] {
      assert a + b == b;
    } else {
      assert (a + b)[1..] == a[1..] + b;
      SumAdds(a[1..], b);
    }
  }

  lemma {:induction false} DeviationsAdd(a: seq<real>, b: seq<real>, m: real)
    ensures SquaredDeviations(a + b, m) == SquaredDeviations(a, m) + SquaredDeviations(b, m)
  {
    if a == [] {
      assert a + b == b;
    } else {
      assert (a + b)[1..] == a[1..] + b;
      DeviationsAdd(a[1..], b, m);
    }
  }

  /** What one sample contributes. */
  lemma OneSample(x: real, m: real)
    ensures Sum([x]) == x && SquaredDeviations([x], m) == (x - m) * (x - m)
    ensures Sum([]) == 0.0 && SquaredDeviations([], m) == 0.0
  {
    assert [x][1..] == [];
  }

  lemma {:induction false} InsertAdds(x: real, s: seq<real>, m: real)
    ensures Sum(Insert(x, s)) == x + Sum(s)
    ensures SquaredDeviations(Insert(x, s), m) == Times(x - m, x - m) + SquaredDeviations(s, m)
  {
    var t := Insert(x, s);
    if s == [] || x <= s[0] {
      assert t[1..] == s;
    } else {
      assert t[1..] == Insert(x, s[1..]);
      InsertAdds(x, s[1..], m);
    }
  }

  lemma {:induction false} SortKeepsSums(s: seq<real>, m: real)
    ensures Sum(Sort(s)) == Sum(s)
    ensures SquaredDeviations(Sort(s), m) == SquaredDeviations(s, m)
  {
    if s != [] {
      SortKeepsSums(s[1..], m);
      InsertAdds(s[0], Sort(s[1..]), m);
    }
  }

  lemma DivideTimes(y: real, n: real)
    requires n != 0.0
    ensures y / n * n == y
  {
  }

  lemma MeanTimes(s: seq<real>)
    requires s != []
    ensures Mean(s) * (|s| as real) == Sum(s)
  {
    DivideTimes(Sum(s), |s| as real);
  }

  lemma VarianceTimes(s: seq<real>)
    requires |s| >= 2
    ensures Variance(s) * (|s| as real - 1.0) == SquaredDeviations(s, Mean(s))
  {
    DivideTimes(SquaredDeviations(s, Mean(s)), |s| as real - 1.0);
  }

  lemma SummaryHolds(s: seq<real>)
    requires s != []
    ensures Summarize(s).mean == Mean(s) && Summarize(s).variance == Variance(s)
  {
  }

  lemma SortedLength(samples: seq<real>)
    ensures |Sort(samples)| == |samples|
  {
    SortSorts(samples);
  }

  predicate IsProduct(a: real, b: real, y: real) { a * b == y }

  lemma SortedProducts(s: seq<real>)
    requires s != []
    ensures IsProduct(Mean(s), |s| as real, Sum(s))
    ensures |s| >= 2 ==> IsProduct(Variance(s), |s| as real - 1.0, SquaredDeviations(s, Mean(s)))
    ensures |s| == 1 ==> Variance(s) == 0.0
  {
    MeanTimes(s);
    if |s| >= 2 {
      VarianceTimes(s);
    }
  }

  /** n means make up the sum of the samples, and n - 1 variances their squared deviations
      from the mean; a single sample has no variance. */
  lemma MeanAndVariance(samples: seq<real>)
    requires samples != []
    ensures var p := Summarize(Sort(samples));
            && IsProduct(p.mean, |samples| as real, Sum(samples))
            && (|samples| >= 2 ==>
                  IsProduct(p.variance, |samples| as real - 1.0, SquaredDeviations(samples, p.mean)))
            && (|samples| == 1 ==> p.variance == 0.0)
  {
    SortedLength(samples);
    var s := Sort(samples);
    SummaryHolds(s);
    SortedProducts(s);
    SortKeepsSums(samples, Mean(s));
  }

  /** Which sample each field holds: the extremes, and the sample at the rank nearest to
      50, 90, 95, 99 and 99.9 percent of the way; no samples give zeros. */
  lemma FieldsAre(samples: seq<real>)
    requires samples != []
    ensures var s, p, n := Sort(samples), Summarize(Sort(samples)), |samples|;
            && |s| == n
            && p.min == s[0] && p.max == s[n - 1]
            && 0 <= Rank(n, 0.5) < n && p.p50 == s[Rank(n, 0.5)]
            && 0 <= Rank(n, 0.9) < n && p.p90 == s[Rank(n, 0.9)]
            && 0 <= Rank(n, 0.95) < n && p.p95 == s[Rank(n, 0.95)]
            && 0 <= Rank(n, 0.99) < n && p.p99 == s[Rank(n, 0.99)]
            && 0 <= Rank(n, 0.999) < n && p.p999 == s[Rank(n, 0.999)]
  {
    SortSorts(samples);
    var n := |samples|;
    NearestRank(n, 0.5);
    NearestRank(n, 0.9);
    NearestRank(n, 0.95);
    NearestRank(n, 0.99);
    NearestRank(n, 0.999);
  }

  lemma EmptySummary()
    ensures Summarize(Sort([])) == Summary(0.0, 0.0, 0.0, 0.0, 0.0, 0.0, 0.0, 0.0, 0.0)
  {
  }

  // ----- Shifting every sample -----

  function Shift(s: seq<real>, c: real): (t: seq<real>)
    ensures |t| == |s| && forall i :: 0 <= i < |s| ==> t[i] == s[i] + c
  {
    seq(|s|, i requires 0 <= i < |s| => s[i] + c)
  }

  lemma ShiftTail(s: seq<real>, c: real)
    requires s != []
    ensures Shift(s, c)[1..] == Shift(s[1..], c)
  {
  }

  lemma {:induction false} ShiftInsert(x: real, s: seq<real>, c: real)
    ensures Insert(x + c, Shift(s, c)) == Shift(Insert(x, s), c)
  {
    if s != [] {
      ShiftTail(s, c);
      ShiftInsert(x, s[1..], c);
    }
  }

  lemma {:induction false} ShiftSort(s: seq<real>, c: real)
    ensures Sort(Shift(s, c)) == Shift(Sort(s), c)
  {
    if s != [] {
      ShiftTail(s, c);
      ShiftSort(s[1..], c);
      ShiftInsert(s[0], Sort(s[1..]), c);
    }
  }

  lemma {:induction false} ShiftSum(s: seq<real>, c: real)
    ensures Sum(Shift(s, c)) == Sum(s) + c * (|s| as real)
  {
    if s != [] {
      ShiftTail(s, c);
      ShiftSum(s[1..], c);
      assert |s| as real == (|s[1..]| as real) + 1.0;
    }
  }

  lemma ShiftMean(s: seq<real>, c: real)
    requires s != []
    ensures Mean(Shift(s, c)) == Mean(s) + c
  {
    ShiftSum(s, c);
    var n := |s| as real;
    assert (Mean(s) + c) * n == Mean(s) * n + c * n;
    DivideUnique(Mean(s) + c, Sum(Shift(s, c)), n);
  }

  lemma {:induction false} ShiftDeviations(s: seq<real>, m: real, c: real)
    ensures SquaredDeviations(Shift(s, c), m + c) == SquaredDeviations(s, m)
  {
    if s != [] {
      ShiftTail(s, c);
      ShiftDeviations(s[1..], m, c);
      assert Shift(s, c)[0] - (m + c) == s[0] - m;
    }
  }

  lemma ShiftPick(s: seq<real>, q: real, c: real)
    requires s != [] && 0.0 <= q
    ensures Pick(Shift(s, c), q) == Pick(s, q) + c
  {
    RankNonNegative(|s|, q);
  }

  lemma ShiftVariance(s: seq<real>, c: real)
    requires s != []
    ensures Variance(Shift(s, c)) == Variance(s)
  {
    ShiftMean(s, c);
    ShiftDeviations(s, Mean(s), c);
  }

  /** Adding a constant to every sample moves every percentile by it ... */
  lemma ShiftMovesPercentiles(samples: seq<real>, c: real, q: real)
    requires samples != [] && 0.0 <= q
    ensures Sort(samples) != [] && Sort(Shift(samples, c)) != []
    ensures Pick(Sort(Shift(samples, c)), q) == Pick(Sort(samples), q) + c
  {
    SortSorts(samples);
    ShiftSort(samples, c);
    ShiftPick(Sort(samples), q, c);
  }

  /** ... and the mean too, and leaves the spread alone. */
  lemma ShiftMovesMeanOnly(samples: seq<real>, c: real)
    requires samples != []
    ensures Sort(samples) != [] && Sort(Shift(samples, c)) != []
    ensures Mean(Sort(Shift(samples, c))) == Mean(Sort(samples)) + c
    ensures Variance(Sort(Shift(samples, c))) == Variance(Sort(samples))
  {
    SortSorts(samples);
    ShiftSort(samples, c);
    ShiftMean(Sort(samples), c);
    ShiftVariance(Sort(samples), c);
  }
}
