/** The fit itself: its coefficients, exactness at the nodes, the largest error on a
    grid, and the least degree of the ladder whose error is small enough. */
module ChebyshevDegree {
  import opened ChebyshevFit

  // ----- the fit -----

  /** The j-th cosine sum over the first count samples. */
  function CosineSum(cosine: Cosine, fx: seq<real>, j: nat, count: nat): real
    requires count <= |fx|
  {
    if count == 0 then 0.0 else CosineSum(cosine, fx, j, count - 1) + fx[count - 1] * cosine(|fx|, j, count - 1)
  }

  function Coefficient(cosine: Cosine, fx: seq<real>, j: nat): real
    requires |fx| > 0
  {
    (2.0 / |fx| as real) * CosineSum(cosine, fx, j, |fx|) * Weight(j)
  }

  function Coefficients(cosine: Cosine, fx: seq<real>): (r: seq<real>)
    requires |fx| > 0
    ensures |r| == |fx| && forall j :: 0 <= j < |r| ==> r[j] == Coefficient(cosine, fx, j)
  {
    seq(|fx|, j requires 0 <= j => Coefficient(cosine, fx, j))
  }

  function Node(cosine: Cosine, lo: real, hi: real, n: nat, k: nat): real {
    FromUnit(lo, hi, cosine(n, 1, k))
  }

  function Samples(f: real -> real, cosine: Cosine, lo: real, hi: real, n: nat): (r: seq<real>)
    ensures |r| == n && forall k :: 0 <= k < n ==> r[k] == f(Node(cosine, lo, hi, n, k))
  {
    seq(n, k requires 0 <= k => f(Node(cosine, lo, hi, n, k)))
  }

  function Fit(f: real -> real, cosine: Cosine, lo: real, hi: real, degree: nat): (r: seq<real>)
    ensures |r| == degree + 1
  {
    Coefficients(cosine, Samples(f, cosine, lo, hi, degree + 1))
  }

  method SampleAtNodes(f: real -> real, cosine: Cosine, lo: real, hi: real, n: nat) returns (fx: seq<real>)
    ensures fx == Samples(f, cosine, lo, hi, n)
  {
    hide FromUnit;
    fx := [];
    for k := 0 to n
      invariant |fx| == k
      invariant forall i :: 0 <= i < k ==> fx[i] == f(Node(cosine, lo, hi, n, i))
    {
      var t := cosine(n, 1, k);
      var x := FromUnit(lo, hi, t);
      fx := fx + [f(x)];
    }
  }

  method SumCosines(cosine: Cosine, fx: seq<real>, j: nat) returns (s: real)
    ensures s == CosineSum(cosine, fx, j, |fx|)
  {
    s := 0.0;
    for k := 0 to |fx|
      invariant s == CosineSum(cosine, fx, j, k)
    {
      s := s + fx[k] * cosine(|fx|, j, k);
    }
  }

  /** _cheb_nodes_fit */
  method ChebNodesFit(f: real -> real, cosine: Cosine, lo: real, hi: real, degree: nat) returns (coeffs: seq<real>)
    ensures coeffs == Fit(f, cosine, lo, hi, degree)
  {
    hide CosineSum, Samples;
    var n := degree + 1;
    var fx := SampleAtNodes(f, cosine, lo, hi, n);
    coeffs := [];
    for j := 0 to n
      invariant |coeffs| == j
      invariant forall i :: 0 <= i < j ==> coeffs[i] == (2.0 / n as real) * CosineSum(cosine, fx, i, n)
    {
      var s := SumCosines(cosine, fx, j);
      coeffs := coeffs + [(2.0 / n as real) * s];
    }
    ghost var sums := coeffs;
    coeffs := coeffs[0 := coeffs[0] * 0.5];
    forall j | 0 <= j < n ensures coeffs[j] == Coefficient(cosine, fx, j) {
      if j > 0 { TimesOne(sums[j], Weight(j)); }
    }
  }

  // ----- exactness at the nodes -----

  /** fx_0 K(J, t_0, y) + ... with the kernels of the first count nodes. */
  function KernelSum(cosine: Cosine, fx: seq<real>, terms: nat, y: real, count: nat): real
    requires count <= |fx|
  {
    if count == 0 then 0.0
    else KernelSum(cosine, fx, terms, y, count - 1) + fx[count - 1] * Kernel(terms, cosine(|fx|, 1, count - 1), y)
  }

  lemma TermAdded(k1: real, k: real, before1: real, before: real, f: real, w: real, tx: real, ty: real, c: real,
          sum: real)
    requires k1 == k + w * (tx * ty) && c == tx && before1 == before + w * (sum * ty)
    ensures before1 + f * k1 == (before + f * k) + w * ((sum + f * c) * ty)
  {
    assert f * k1 == f * k + f * (w * (tx * ty));
    assert f * (w * (tx * ty)) == w * ((f * tx) * ty);
    assert (sum + f * c) * ty == sum * ty + (f * c) * ty;
  }

  lemma KernelTerm(terms: nat, x: real, y: real)
    ensures Kernel(terms + 1, x, y) == Kernel(terms, x, y) + Weight(terms) * (T(terms, x) * T(terms, y))
  {
    hide T, Weight;
  }

  /** One more term in every kernel is one more cosine sum. */
  lemma {:induction false} KernelSumTerm(cosine: Cosine, fx: seq<real>, terms: nat, y: real, count: nat)
    requires count <= |fx| && IsCosine(cosine, |fx|)
    ensures KernelSum(cosine, fx, terms + 1, y, count)
         == KernelSum(cosine, fx, terms, y, count) + Weight(terms) * (CosineSum(cosine, fx, terms, count) * T(terms, y))
  {
    hide T, Kernel, Weight, IsCosine;
    if count == 0 {
      TimesZero(0.0, T(terms, y));
      TimesZero(0.0, Weight(terms));
    } else {
      KernelSumTerm(cosine, fx, terms, y, count - 1);
      var x := cosine(|fx|, 1, count - 1);
      CosineIsT(cosine, |fx|, terms, count - 1);
      KernelTerm(terms, x, y);
      TermAdded(Kernel(terms + 1, x, y), Kernel(terms, x, y),
                KernelSum(cosine, fx, terms + 1, y, count - 1), KernelSum(cosine, fx, terms, y, count - 1),
                fx[count - 1], Weight(terms), T(terms, x), T(terms, y),
                cosine(|fx|, terms, count - 1), CosineSum(cosine, fx, terms, count - 1));
    }
  }

  lemma {:induction false} NoKernels(cosine: Cosine, fx: seq<real>, y: real, count: nat)
    requires count <= |fx|
    ensures KernelSum(cosine, fx, 0, y, count) == 0.0
  {
    if count > 0 {
      NoKernels(cosine, fx, y, count - 1);
      TimesZero(Kernel(0, cosine(|fx|, 1, count - 1), y), fx[count - 1]);
    }
  }

  /** The first terms of the series are the kernels' sum, scaled. */
  function PartialSeries(coeffs: seq<real>, t: real, hi: nat): real
    requires hi <= |coeffs|
  {
    if hi == 0 then 0.0 else PartialSeries(coeffs, t, hi - 1) + coeffs[hi - 1] * T(hi - 1, t)
  }

  lemma {:induction false} SeriesSplit(coeffs: seq<real>, t: real, i: nat)
    requires i <= |coeffs|
    ensures Series(coeffs, t) == PartialSeries(coeffs, t, i) + SeriesFrom(coeffs, t, i)
  {
    hide T;
    if i > 0 {
      SeriesSplit(coeffs, t, i - 1);
    }
  }

  lemma Scaled(a: real, s: real, w: real, ty: real)
    ensures (a * s * w) * ty == a * (w * (s * ty))
  {
    assert (a * s * w) * ty == a * (s * w * ty);
    assert s * w * ty == w * (s * ty);
  }

  lemma ScaledSum(a: real, p: real, q: real)
    ensures a * (p + q) == a * p + a * q
  {}

  lemma {:induction false} SeriesIsKernels(cosine: Cosine, fx: seq<real>, y: real, terms: nat)
    requires |fx| > 0 && terms <= |fx| && IsCosine(cosine, |fx|)
    ensures PartialSeries(Coefficients(cosine, fx), y, terms)
         == (2.0 / |fx| as real) * KernelSum(cosine, fx, terms, y, |fx|)
  {
    hide T, Kernel, Weight, IsCosine, CosineSum;
    var a := 2.0 / |fx| as real;
    if terms == 0 {
      NoKernels(cosine, fx, y, |fx|);
      TimesZero(KernelSum(cosine, fx, 0, y, |fx|), a);
    } else {
      var j := terms - 1;
      SeriesIsKernels(cosine, fx, y, j);
      KernelSumTerm(cosine, fx, j, y, |fx|);
      var s := CosineSum(cosine, fx, j, |fx|);
      Scaled(a, s, Weight(j), T(j, y));
      ScaledSum(a, KernelSum(cosine, fx, j, y, |fx|), Weight(j) * (s * T(j, y)));
    }
  }

  lemma NodeIsZero(cosine: Cosine, n: nat, k: nat)
    requires k < n && IsCosine(cosine, n)
    ensures T(n, cosine(n, 1, k)) == 0.0
  {
    hide T;
    CosineIsT(cosine, n, n, k);
  }

  lemma NodesDiffer(cosine: Cosine, n: nat, k: nat, m: nat)
    requires k < n && m < n
    requires k != m
    requires IsCosine(cosine, n)
    ensures cosine(n, 1, k) != cosine(n, 1, m)
  {}

  /** At a node only its own kernel is left. */
  lemma {:induction false} OneKernel(cosine: Cosine, fx: seq<real>, m: nat, count: nat)
    requires m < |fx| && count <= |fx| && IsCosine(cosine, |fx|)
    ensures KernelSum(cosine, fx, |fx|, cosine(|fx|, 1, m), count) == if m < count then fx[m] * (0.5 * |fx| as real)
        else 0.0
  {
    hide T, Kernel, IsCosine;
    if count > 0 {
      var n, k := |fx|, count - 1;
      var x, y := cosine(n, 1, k), cosine(n, 1, m);
      NodeIsZero(cosine, n, k);
      NodeIsZero(cosine, n, m);
      OneKernel(cosine, fx, m, k);
      if k == m {
        Together(n, y);
      } else {
        NodesDiffer(cosine, n, k, m);
        Apart(n, x, y);
        TimesZero(Kernel(n, x, y), fx[k]);
      }
    }
  }

  lemma Halves(n: real, v: real)
    requires n > 0.0
    ensures (2.0 / n) * (v * (0.5 * n)) == v
  {
    assert (2.0 / n) * n == 2.0;
    assert (2.0 / n) * (v * (0.5 * n)) == ((2.0 / n) * n) * (v * 0.5);
  }

  lemma UnitAndBack(lo: real, hi: real, t: real)
    requires lo != hi
    ensures ToUnit(lo, hi, FromUnit(lo, hi, t)) == t
  {
    var x := FromUnit(lo, hi, t);
    assert 2.0 * (0.5 * (hi - lo) * t) == (hi - lo) * t;
    assert 2.0 * x - lo - hi == (hi - lo) * t;
    assert ((hi - lo) * t) / (hi - lo) == t;
  }

  /** The fitted series is f at every node. */
  lemma ExactAtNodes(f: real -> real, cosine: Cosine, lo: real, hi: real, degree: nat, m: nat)
    requires lo != hi && m <= degree && IsCosine(cosine, degree + 1)
    ensures var x := Node(cosine, lo, hi, degree + 1, m);
      Series(Fit(f, cosine, lo, hi, degree), ToUnit(lo, hi, x)) == f(x)
  {
    hide IsCosine, ToUnit, FromUnit;
    var n := degree + 1;
    var fx := Samples(f, cosine, lo, hi, n);
    var coeffs := Coefficients(cosine, fx);
    var y := cosine(n, 1, m);
    UnitAndBack(lo, hi, y);
    SeriesSplit(coeffs, y, n);
    SeriesIsKernels(cosine, fx, y, n);
    OneKernel(cosine, fx, m, n);
    Halves(n as real, fx[m]);
  }

  // ----- the largest error -----

  function Abs(x: real): real {
    if x < 0.0 then -x else x
  }

  function Error(f: real -> real, coeffs: seq<real>, lo: real, hi: real, x: real): real
    requires |coeffs| > 0 && lo != hi
  {
    Abs(f(x) - Series(coeffs, ToUnit(lo, hi, x)))
  }

  function GridPoint(lo: real, hi: real, samples: nat, i: nat): real
    requires samples > 1
  {
    lo + (hi - lo) * i as real / (samples - 1) as real
  }

  /** The largest error on the first count points. */
  function WorstOf(f: real -> real, coeffs: seq<real>, lo: real, hi: real, samples: nat, count: nat): real
    requires |coeffs| > 0 && lo != hi && samples > 1
  {
    if count == 0 then 0.0
    else
      var before := WorstOf(f, coeffs, lo, hi, samples, count - 1);
      var err := Error(f, coeffs, lo, hi, GridPoint(lo, hi, samples, count - 1));
      if err > before then err else before
  }

  const SAMPLES: nat := 2001

  function MaxErrorOf(f: real -> real, cosine: Cosine, lo: real, hi: real, degree: nat): real
    requires lo != hi
  {
    WorstOf(f, Fit(f, cosine, lo, hi, degree), lo, hi, SAMPLES, SAMPLES)
  }

  /** A bound is met by the largest error exactly when it is met at every point. */
  lemma {:induction false} WorstBounds(f: real -> real, coeffs: seq<real>, lo: real, hi: real, samples: nat, count: nat,
          bound: real)
    requires |coeffs| > 0 && lo != hi && samples > 1 && bound >= 0.0
    ensures WorstOf(f, coeffs, lo, hi, samples, count) <= bound
       <==> forall i: nat :: i < count ==> Error(f, coeffs, lo, hi, GridPoint(lo, hi, samples, i)) <= bound
  {
    hide Error, GridPoint;
    if count > 0 {
      WorstBounds(f, coeffs, lo, hi, samples, count - 1, bound);
    }
  }

  /** The grid spans the interval: from lo to hi, in even steps. */
  lemma GridSpans(lo: real, hi: real, samples: nat, i: nat)
    requires samples > 1 && i < samples
    ensures GridPoint(lo, hi, samples, 0) == lo && GridPoint(lo, hi, samples, samples - 1) == hi
    ensures i + 1 < samples ==>
      GridPoint(lo, hi, samples, i + 1) - GridPoint(lo, hi, samples, i) == (hi - lo) / (samples - 1) as real
  {
    var n := (samples - 1) as real;
    assert (hi - lo) * n / n == hi - lo;
    assert (hi - lo) * (i + 1) as real == (hi - lo) * i as real + (hi - lo);
    SumOver((hi - lo) * i as real, hi - lo, n);
  }

  lemma SumOver(a: real, b: real, n: real)
    requires n != 0.0
    ensures (a + b) / n == a / n + b / n
  {}

  /** The units' ends are the interval's. */
  lemma UnitEnds(lo: real, hi: real)
    requires lo != hi
    ensures ToUnit(lo, hi, lo) == -1.0 && ToUnit(lo, hi, hi) == 1.0
    ensures FromUnit(lo, hi, -1.0) == lo && FromUnit(lo, hi, 1.0) == hi
  {
    var w := hi - lo;
    assert 2.0 * lo - lo - hi == -1.0 * w && -1.0 * w / w == -1.0;
    assert 2.0 * hi - lo - hi == w && w / w == 1.0;
  }

  /** The largest error is within a bound exactly when the series is that close to the
      function, above and below, at every point of the grid. */
  lemma MaxErrorMeans(f: real -> real, cosine: Cosine, lo: real, hi: real, degree: nat, bound: real)
    requires lo != hi && bound >= 0.0
    ensures MaxErrorOf(f, cosine, lo, hi, degree) <= bound <==>
      forall i: nat :: i < SAMPLES ==>
        var x := GridPoint(lo, hi, SAMPLES, i);
        -bound <= f(x) - Series(Fit(f, cosine, lo, hi, degree), ToUnit(lo, hi, x)) <= bound
  {
    hide Fit, Series, ToUnit, GridPoint, WorstOf;
    WorstBounds(f, Fit(f, cosine, lo, hi, degree), lo, hi, SAMPLES, SAMPLES, bound);
  }

  method MaxError(f: real -> real, cosine: Cosine, lo: real, hi: real, degree: nat) returns (worst: real)
    requires lo != hi
    ensures worst == MaxErrorOf(f, cosine, lo, hi, degree)
  {
    hide Fit, Series, ToUnit, GridPoint;
    var coeffs := ChebNodesFit(f, cosine, lo, hi, degree);
    worst := 0.0;
    for i := 0 to SAMPLES
      invariant worst == WorstOf(f, coeffs, lo, hi, SAMPLES, i)
    {
      var x := GridPoint(lo, hi, SAMPLES, i);
      var y := ChebEval(coeffs, lo, hi, x);
      var err := Abs(f(x) - y);
      if err > worst {
        worst := err;
      }
    }
  }

  // ----- the degree -----

  const DEGREE_LADDER: seq<nat> := [5, 13, 27, 59, 119, 247, 495, 1007, 2031]

  function Pow2(k: nat): (p: nat)
    ensures p > 0
  {
    if k == 0 then 1 else 2 * Pow2(k - 1)
  }

  /** ceil(log2(n)) */
  function CeilLog2(n: nat): (k: nat)
    ensures n <= Pow2(k) && (k > 0 ==> Pow2(k - 1) < n)
  {
    if n <= 1 then 0 else 1 + CeilLog2((n + 1) / 2)
  }

  function DepthForDegree(d: nat): nat {
    CeilLog2(d + 1) + 1
  }

  /** The depth is one more than the least number of doublings that pass the degree. */
  lemma DepthIsLeast(d: nat, k: nat)
    ensures DepthForDegree(d) <= k + 1 <==> d < Pow2(k)
  {
    hide Pow2, CeilLog2;
    var c := CeilLog2(d + 1);
    if c <= k {
      Pow2Monotone(c, k);
    } else {
      Pow2Monotone(k, c - 1);
    }
  }

  lemma {:induction false} Pow2Monotone(i: nat, j: nat)
    requires i <= j
    ensures Pow2(i) <= Pow2(j)
  {
    if i < j { Pow2Monotone(i, j - 1); }
  }

  /** A lower degree is never deeper. */
  lemma DepthMonotone(d: nat, e: nat)
    requires d <= e
    ensures DepthForDegree(d) <= DepthForDegree(e)
  {
    hide Pow2, CeilLog2;
    if CeilLog2(e + 1) < CeilLog2(d + 1) {
      Pow2Monotone(CeilLog2(e + 1), CeilLog2(d + 1) - 1);
    }
  }

  predicate Meets(f: real -> real, cosine: Cosine, lo: real, hi: real, degree: nat, target: real)
    requires lo != hi
  {
    MaxErrorOf(f, cosine, lo, hi, degree) <= target
  }

  /** select_degree: the first rung that meets the target, which no rung of less depth
      does, with its error; or the best error there is. */
  method SelectDegree(f: real -> real, cosine: Cosine, lo: real, hi: real, target: real)
    returns (degree: Option<nat>, error: real)
    requires lo != hi
    ensures degree.Some? <==> exists d :: d in DEGREE_LADDER && Meets(f, cosine, lo, hi, d, target)
    ensures degree.Some? ==>
      && degree.value in DEGREE_LADDER && error == MaxErrorOf(f, cosine, lo, hi, degree.value) <= target
      && forall d :: d in DEGREE_LADDER && Meets(f, cosine, lo, hi, d, target) ==>
           degree.value <= d && DepthForDegree(degree.value) <= DepthForDegree(d)
    ensures degree.None? ==>
      && (exists d :: d in DEGREE_LADDER && error == MaxErrorOf(f, cosine, lo, hi, d))
      && forall d :: d in DEGREE_LADDER ==> error <= MaxErrorOf(f, cosine, lo, hi, d)
  {
    hide MaxErrorOf, DepthForDegree;
    var best: Option<real> := None;
    for i := 0 to |DEGREE_LADDER|
      invariant best.Some? <==> i > 0
      invariant forall j :: 0 <= j < i ==> !Meets(f, cosine, lo, hi, DEGREE_LADDER[j], target)
      invariant forall j :: 0 <= j < i ==> best.value <= MaxErrorOf(f, cosine, lo, hi, DEGREE_LADDER[j])
      invariant i > 0 ==> exists j :: 0 <= j < i && best.value == MaxErrorOf(f, cosine, lo, hi, DEGREE_LADDER[j])
    {
      var d := DEGREE_LADDER[i];
      var err := MaxError(f, cosine, lo, hi, d);
      if best.None? || err < best.value {
        best := Some(err);
      }
      if err <= target {
        assert Meets(f, cosine, lo, hi, d, target);
        LeastRung(f, cosine, lo, hi, target, i);
        return Some(d), err;
      }
    }
    return None, best.value;
  }

  lemma LadderAscends(i: nat, j: nat)
    requires i <= j < |DEGREE_LADDER|
    ensures DEGREE_LADDER[i] <= DEGREE_LADDER[j]
  {}

  lemma LeastRung(f: real -> real, cosine: Cosine, lo: real, hi: real, target: real, i: nat)
    requires lo != hi && i < |DEGREE_LADDER|
    requires forall j :: 0 <= j < i ==> !Meets(f, cosine, lo, hi, DEGREE_LADDER[j], target)
    ensures forall d :: d in DEGREE_LADDER && Meets(f, cosine, lo, hi, d, target) ==>
      DEGREE_LADDER[i] <= d && DepthForDegree(DEGREE_LADDER[i]) <= DepthForDegree(d)
  {
    hide Meets, DepthForDegree;
    forall d | d in DEGREE_LADDER && Meets(f, cosine, lo, hi, d, target)
      ensures DEGREE_LADDER[i] <= d && DepthForDegree(DEGREE_LADDER[i]) <= DepthForDegree(d)
    {
      var j :| 0 <= j < |DEGREE_LADDER| && DEGREE_LADDER[j] == d;
      LadderAscends(i, j);
      DepthMonotone(DEGREE_LADDER[i], d);
    }
  }
}
