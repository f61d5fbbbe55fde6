/** Fitting a Chebyshev series to a function at compile time: the series' evaluation,
    its exactness at the nodes, and the choice of a degree. Numbers are real numbers. */
module ChebyshevFit {

  datatype Option<+T> = None | Some(value: T)

  // ----- Chebyshev polynomials -----

  /** T_j(t) */
  function T(j: nat, t: real): real {
    if j == 0 then 1.0 else if j == 1 then t else 2.0 * t * T(j - 1, t) - T(j - 2, t)
  }

  lemma Recurrence(j: nat, t: real)
    requires j > 0
    ensures T(j + 1, t) == 2.0 * t * T(j, t) - T(j - 1, t)
  {}

  /** c_lo * T_lo + ... up to the last coefficient. */
  function SeriesFrom(coeffs: seq<real>, t: real, lo: nat): real
    requires lo <= |coeffs|
    decreases |coeffs| - lo
  {
    if lo == |coeffs| then 0.0 else coeffs[lo] * T(lo, t) + SeriesFrom(coeffs, t, lo + 1)
  }

  function Series(coeffs: seq<real>, t: real): real {
    SeriesFrom(coeffs, t, 0)
  }

  // ----- Clenshaw's recurrence -----

  lemma ClenshawStep(t: real, ti: real, before: real, next: real, b1: real, b2: real, c: real)
    requires next == 2.0 * t * ti - before
    ensures c * ti + (b1 * next - b2 * ti) == (2.0 * t * b1 - b2 + c) * ti - b1 * before
  {
    calc {
      c * ti + (b1 * next - b2 * ti);
      c * ti + (b1 * (2.0 * t * ti - before) - b2 * ti);
      { assert b1 * (2.0 * t * ti - before) == b1 * (2.0 * t * ti) - b1 * before; }
      c * ti + b1 * (2.0 * t * ti) - b1 * before - b2 * ti;
      { assert b1 * (2.0 * t * ti) == (2.0 * t * b1) * ti; }
      c * ti + (2.0 * t * b1) * ti - b2 * ti - b1 * before;
      { assert (2.0 * t * b1 - b2 + c) * ti == (2.0 * t * b1) * ti - b2 * ti + c * ti; }
      (2.0 * t * b1 - b2 + c) * ti - b1 * before;
    }
  }

  /** Where x lies when the domain is stretched to [-1, 1]. */
  function ToUnit(lo: real, hi: real, x: real): real
    requires lo != hi
  {
    (2.0 * x - lo - hi) / (hi - lo)
  }

  function FromUnit(lo: real, hi: real, t: real): real {
    0.5 * (hi - lo) * t + 0.5 * (hi + lo)
  }

  /** _cheb_eval: the recurrence gives the value of the series. */
  method ChebEval(coeffs: seq<real>, lo: real, hi: real, x: real) returns (y: real)
    requires |coeffs| > 0 && lo != hi
    ensures y == Series(coeffs, ToUnit(lo, hi, x))
  {
    hide T;
    var t := ToUnit(lo, hi, x);
    var b1, b2 := 0.0, 0.0;
    var i := |coeffs|;
    while i > 1
      invariant 1 <= i <= |coeffs|
      invariant SeriesFrom(coeffs, t, i) == b1 * T(i, t) - b2 * T(i - 1, t)
    {
      i := i - 1;
      var c := coeffs[i];
      Recurrence(i, t);
      ClenshawStep(t, T(i, t), T(i - 1, t), T(i + 1, t), b1, b2, c);
      b1, b2 := 2.0 * t * b1 - b2 + c, b1;
    }
    y := t * b1 - b2 + coeffs[0];
    FirstTwo(t);
    assert b1 * t == t * b1;
  }

  lemma FirstTwo(t: real)
    ensures T(0, t) == 1.0 && T(1, t) == t
  {}

  // ----- zeros of T_n as nodes -----

  /** cos(pi * j * (k + 1/2) / n), and what is true of it: multiple angles, a zero at a
      right angle, and no cosine twice between 0 and pi. */
  type Cosine = (nat, nat, nat) -> real

  ghost predicate IsCosine(cosine: Cosine, n: nat) {
    && (forall k :: 0 <= k < n ==> cosine(n, 0, k) == 1.0 && cosine(n, n, k) == 0.0)
    && (forall j: nat, k :: 0 <= k < n ==> Doubles(cosine, n, j, k))
    && (forall k, m :: 0 <= k < n && 0 <= m < n && k != m ==> cosine(n, 1, k) != cosine(n, 1, m))
  }

  predicate Doubles(cosine: Cosine, n: nat, j: nat, k: nat) {
    cosine(n, j + 2, k) == 2.0 * cosine(n, 1, k) * cosine(n, j + 1, k) - cosine(n, j, k)
  }

  lemma {:induction false} CosineIsT(cosine: Cosine, n: nat, j: nat, k: nat)
    requires IsCosine(cosine, n) && k < n
    ensures cosine(n, j, k) == T(j, cosine(n, 1, k))
  {
    if j > 1 {
      CosineIsT(cosine, n, j - 1, k);
      CosineIsT(cosine, n, j - 2, k);
      assert Doubles(cosine, n, j - 2, k);
    }
  }

  // ----- identities -----

  /** T_(j+1) as the recurrence gives it. */
  predicate Next(next: real, t: real, tj: real, before: real) {
    next == 2.0 * t * tj - before
  }

  lemma RecurrenceOf(j: nat, t: real)
    requires j > 0
    ensures Next(T(j + 1, t), t, T(j, t), T(j - 1, t))
  {}

  predicate TwiceProduct(a: real, b: real, sum: real, difference: real) {
    2.0 * (a * b) == sum + difference
  }

  /** 2 T_m T_i = T_(m+i) + T_(m-i) */
  lemma {:induction false} ProductToSum(m: nat, i: nat, t: real)
    requires i <= m
    ensures TwiceProduct(T(m, t), T(i, t), T(m + i, t), T(m - i, t))
  {
    hide T, Next, TwiceProduct;
    FirstTwo(t);
    if i == 0 {
      TwiceOne(T(m, t), T(0, t));
    } else if i == 1 {
      RecurrenceOf(m, t);
      TwiceNext(T(m, t), T(1, t), T(m + 1, t), T(m - 1, t));
    } else {
      ProductToSum(m, i - 1, t);
      ProductToSum(m, i - 2, t);
      RecurrenceOf(i - 1, t);
      RecurrenceOf(m + i - 1, t);
      RecurrenceOf(m - i + 1, t);
      TwiceStep(t, T(m, t), T(i, t), T(i - 1, t), T(i - 2, t), T(m + i, t), T(m + i - 1, t), T(m + i - 2, t),
                T(m - i, t), T(m - i + 1, t), T(m - i + 2, t));
    }
  }

  lemma TwiceOne(a: real, one: real)
    requires one == 1.0
    ensures TwiceProduct(a, one, a, a)
  {}

  lemma TwiceNext(a: real, t: real, next: real, before: real)
    requires Next(next, t, a, before)
    ensures TwiceProduct(a, t, next, before)
  {}

  lemma TwiceStep(t: real, a: real, ti: real, b: real, c: real, p: real, p1: real, p2: real, q: real, q1: real,
          q2: real)
    requires Next(ti, t, b, c) && Next(p, t, p1, p2) && Next(q2, t, q1, q)
    requires TwiceProduct(a, b, p1, q1) && TwiceProduct(a, c, p2, q2)
    ensures TwiceProduct(a, ti, p, q)
  {
    ThreeTerms(a, b, c, t);
    Doubled(t, a * b, p1, q1);
  }

  lemma TimesOne(a: real, b: real)
    requires b == 1.0
    ensures a * b == a && b * a == a
  {}

  lemma ThreeTerms(a: real, b: real, c: real, t: real)
    ensures 2.0 * (a * (2.0 * t * b - c)) == 2.0 * t * (2.0 * (a * b)) - 2.0 * (a * c)
  {
    assert a * (2.0 * t * b - c) == a * (2.0 * t * b) - a * c;
    assert a * (2.0 * t * b) == 2.0 * t * (a * b);
  }

  lemma Doubled(t: real, ab: real, p: real, q: real)
    requires 2.0 * ab == p + q
    ensures 2.0 * t * (2.0 * ab) == 2.0 * t * p + 2.0 * t * q
  {}

  /** T_0(x) T_0(y) / 2 + T_1(x) T_1(y) + ... + T_(n-1)(x) T_(n-1)(y) */
  function Kernel(n: nat, x: real, y: real): real {
    if n == 0 then 0.0 else Kernel(n - 1, x, y) + Weight(n - 1) * (T(n - 1, x) * T(n - 1, y))
  }

  function Weight(j: nat): real {
    if j == 0 then 0.5 else 1.0
  }

  lemma FirstKernel(x: real, y: real)
    ensures Kernel(1, x, y) == 0.5
  {
    hide T;
    FirstTwo(x);
    FirstTwo(y);
    assert Kernel(1, x, y) == Kernel(0, x, y) + 0.5 * (T(0, x) * T(0, y));
  }

  /** What the closed form says of one kernel. */
  predicate Darboux(n: nat, x: real, y: real)
    requires n > 0
  {
    InClosedForm(x, y, Kernel(n, x, y), T(n, x), T(n - 1, x), T(n, y), T(n - 1, y))
  }

  predicate InClosedForm(x: real, y: real, kernel: real, nx: real, px: real, ny: real, py: real) {
    2.0 * (x - y) * kernel == nx * py - px * ny
  }

  lemma FirstDarboux(x: real, y: real)
    ensures Darboux(1, x, y)
  {
    FirstKernel(x, y);
    FirstTwo(x);
    FirstTwo(y);
    hide T, Kernel;
    TimesOne(T(1, x), T(0, y));
    TimesOne(T(1, y), T(0, x));
    assert 2.0 * (x - y) * 0.5 == x - y;
  }

  lemma NextDarboux(n: nat, x: real, y: real)
    requires n > 1 && Darboux(n - 1, x, y)
    ensures Darboux(n, x, y)
  {
    hide T, Next, InClosedForm, Kernel;
    RecurrenceOf(n - 1, x);
    RecurrenceOf(n - 1, y);
    NextKernel(n, x, y);
    DarbouxStep(x, y, Kernel(n - 1, x, y), Kernel(n, x, y),
                T(n, x), T(n - 1, x), T(n - 2, x), T(n, y), T(n - 1, y), T(n - 2, y));
  }

  lemma NextKernel(n: nat, x: real, y: real)
    requires n > 1
    ensures Kernel(n, x, y) == Kernel(n - 1, x, y) + T(n - 1, x) * T(n - 1, y)
  {
    hide T;
  }

  lemma DarbouxStep(x: real, y: real, w: real, k: real, nx: real, a: real, p: real, ny: real, b: real, q: real)
    requires InClosedForm(x, y, w, a, p, b, q) && k == w + a * b && Next(nx, x, a, p) && Next(ny, y, b, q)
    ensures InClosedForm(x, y, k, nx, a, ny, b)
  {
    assert 2.0 * (x - y) * k == 2.0 * (x - y) * w + 2.0 * (x - y) * (a * b);
    assert 2.0 * (x - y) * (a * b) == 2.0 * x * (a * b) - 2.0 * y * (a * b);
    assert (2.0 * x * a - p) * b == 2.0 * x * (a * b) - p * b;
    assert a * (2.0 * y * b - q) == 2.0 * y * (a * b) - a * q;
  }

  /** Christoffel and Darboux: the kernel in closed form. */
  lemma {:induction false} ChristoffelDarboux(n: nat, x: real, y: real)
    requires n > 0
    ensures Darboux(n, x, y)
  {
    hide Darboux;
    if n == 1 {
      FirstDarboux(x, y);
    } else {
      ChristoffelDarboux(n - 1, x, y);
      NextDarboux(n, x, y);
    }
  }

  /** Different zeros of T_n are orthogonal. */
  lemma Apart(n: nat, x: real, y: real)
    requires n > 0 && T(n, x) == 0.0 && T(n, y) == 0.0 && x != y
    ensures Kernel(n, x, y) == 0.0
  {
    hide T, Kernel;
    ChristoffelDarboux(n, x, y);
    var d, k := 2.0 * (x - y), Kernel(n, x, y);
    TimesZero(T(n, x), T(n - 1, y));
    TimesZero(T(n, y), T(n - 1, x));
    assert d * k == T(n, x) * T(n - 1, y) - T(n, y) * T(n - 1, x);
    NoZeroDivisor(d, k);
  }

  lemma NoZeroDivisor(d: real, k: real)
    requires d != 0.0 && d * k == 0.0
    ensures k == 0.0
  {}

  /** T_(2 lo) + ... + T_(2 (hi - 1)) */
  function Evens(lo: nat, hi: nat, t: real): real
    requires lo <= hi
    decreases hi
  {
    if lo == hi then 0.0 else Evens(lo, hi - 1, t) + T(2 * (hi - 1), t)
  }

  lemma {:induction false} EvensFromBelow(lo: nat, hi: nat, t: real)
    requires lo < hi
    ensures Evens(lo, hi, t) == T(2 * lo, t) + Evens(lo + 1, hi, t)
    decreases hi
  {
    hide T;
    if lo + 1 < hi {
      EvensFromBelow(lo, hi - 1, t);
    }
  }

  /** At a zero of T_n the j-th and the (n-j)-th even polynomial cancel. */
  lemma EvensCancel(n: nat, j: nat, t: real)
    requires 0 < j < n && T(n, t) == 0.0
    ensures T(2 * j, t) + T(2 * (n - j), t) == 0.0
  {
    hide T;
    var i := if 2 * j >= n then 2 * j - n else n - 2 * j;
    ProductToSum(n, i, t);
    TimesZero(T(n, t), T(i, t));
  }

  lemma TimesZero(a: real, b: real)
    requires a == 0.0
    ensures a * b == 0.0
  {}

  lemma {:induction false} EvensPair(n: nat, a: nat, t: real)
    requires a < n && T(n, t) == 0.0
    ensures Evens(1, a + 1, t) + Evens(n - a, n, t) == 0.0
  {
    hide T;
    if a > 0 {
      EvensPair(n, a - 1, t);
      EvensFromBelow(n - a, n, t);
      EvensCancel(n, a, t);
    }
  }

  lemma EvensVanish(n: nat, t: real)
    requires n > 0 && T(n, t) == 0.0
    ensures Evens(1, n, t) == 0.0
  {
    hide T;
    EvensPair(n, n - 1, t);
  }

  lemma {:induction false} SquaresAsEvens(n: nat, t: real)
    requires n > 0
    ensures 2.0 * Kernel(n, t, t) == n as real + Evens(1, n, t)
  {
    hide T;
    if n == 1 {
      FirstKernel(t, t);
    } else {
      SquaresAsEvens(n - 1, t);
      ProductToSum(n - 1, n - 1, t);
      FirstTwo(t);
    }
  }

  /** A zero of T_n has half of n for its square. */
  lemma Together(n: nat, t: real)
    requires n > 0 && T(n, t) == 0.0
    ensures Kernel(n, t, t) == 0.5 * n as real
  {
    hide T;
    SquaresAsEvens(n, t);
    EvensVanish(n, t);
  }
}
