/** nb_bsgs_diagonals lays the diagonals of a submatrix out so that the diagonal
    product of LinearTransform is a vector-matrix multiplication. */
module BsgsDiagonals {
  import opened Slots
  import opened LinearTransform

  type Matrix = seq<Vec>

  datatype Spec = Spec(row0: nat, col0: nat, width: nat, count: nat, bstep: nat,
                       region: nat, length: nat, rLo: nat, rHi: nat, s: real)

  datatype Error = ZeroBstep | RowsOutside | ColumnsOutside | PastLength

  datatype Result<+T> = Success(value: T) | Failure(error: Error)

  /** The rotation of diagonal k's giant step. */
  function Shift(q: Spec, k: nat): nat
    requires 0 < q.bstep
  {
    k / q.bstep * q.bstep
  }

  /** The first slot of region r. */
  function Base(q: Spec, r: nat): nat {
    r * q.region
  }

  /** The last slot offset any diagonal's writes reach, plus one. */
  function End(q: Spec): nat
    requires 0 < q.bstep && 0 < q.count
  {
    Base(q, q.rHi) + Shift(q, q.count - 1) + q.width
  }

  predicate Writes(q: Spec) {
    0 < q.width && 0 < q.count && q.rLo <= q.rHi
  }

  /** What the checks ask before anything is written. */
  function Check(w: Matrix, q: Spec): Result<()> {
    if q.bstep == 0 then Failure(ZeroBstep)
    else if !Writes(q) then Success(())
    else if q.row0 + q.width > |w| then Failure(RowsOutside)
    else if exists i :: q.row0 <= i < q.row0 + q.width && q.col0 + q.width > |w[i]| then Failure(ColumnsOutside)
    else if End(q) > q.length then Failure(PastLength)
    else Success(())
  }

  lemma ChecksBstep(w: Matrix, q: Spec)
    requires Check(w, q).Success?
    ensures 0 < q.bstep
  {}

  /** The matrix entry diagonal k holds for column i. */
  function Entry(w: Matrix, q: Spec, k: nat, i: nat): real
    requires Check(w, q).Success? && Writes(q) && i < q.width
  {
    w[q.row0 + (i + k) % q.width][q.col0 + i] * q.s
  }

  /** Slot `at + shift` of diagonal k after regions rLo .. r - 1 were written: the
      last region that covers it wins. */
  function Laid(w: Matrix, q: Spec, k: nat, at: int, r: nat): real
    requires Check(w, q).Success? && k < q.count && r <= q.rHi + 1
  {
    if r <= q.rLo then 0.0 * q.s
    else if Base(q, r - 1) <= at < Base(q, r - 1) + q.width then Entry(w, q, k, at - Base(q, r - 1))
    else Laid(w, q, k, at, r - 1)
  }

  lemma TimesMonotone(a: int, b: int, n: int)
    requires a <= b && 0 <= n
    ensures a * n <= b * n
  {}

  lemma ShiftMonotone(q: Spec, j: nat, k: nat)
    requires 0 < q.bstep && j <= k
    ensures Shift(q, j) <= Shift(q, k)
  {
    var n := q.bstep;
    if j / n > k / n {
      TimesMonotone(k / n + 1, j / n, n);
    }
    TimesMonotone(j / n, k / n, n);
  }

  lemma BaseMonotone(q: Spec, r: nat, r': nat)
    requires r <= r'
    ensures Base(q, r) <= Base(q, r')
    ensures r < r' ==> Base(q, r) + q.region <= Base(q, r')
  {
    TimesMonotone(r, r', q.region);
    if r < r' {
      TimesMonotone(r + 1, r', q.region);
    }
  }

  /** The bounds checks keep every write in range. */
  lemma WriteInRange(w: Matrix, q: Spec, k: nat, r: nat, i: nat)
    requires Check(w, q).Success? && k < q.count && q.rLo <= r <= q.rHi && i < q.width
    ensures 0 < q.bstep && Base(q, r) + Shift(q, k) + i < q.length
    ensures q.row0 + q.width <= |w| && forall j :: q.row0 <= j < q.row0 + q.width ==> q.col0 + q.width <= |w[j]|
  {
    hide Base, Shift;
    ShiftMonotone(q, k, q.count - 1);
    BaseMonotone(q, r, q.rHi);
  }

  /** Every entry that is read is in the matrix, and every slot that is written in the vector. */
  ghost predicate InRange(w: Matrix, q: Spec)
    requires 0 < q.bstep
  {
    forall k: nat, r: nat, i: nat {:trigger Touches(w, q, k, r, i)} ::
      k < q.count && q.rLo <= r <= q.rHi && i < q.width ==> Touches(w, q, k, r, i)
  }

  predicate Touches(w: Matrix, q: Spec, k: nat, r: nat, i: nat)
    requires 0 < q.bstep && i < q.width
  {
    var row := q.row0 + (i + k) % q.width;
    row < |w| && q.col0 + i < |w[row]| && Base(q, r) + Shift(q, k) + i < q.length
  }

  lemma TouchesInRange(w: Matrix, q: Spec, k: nat, r: nat, i: nat)
    requires Check(w, q).Success? && k < q.count && q.rLo <= r <= q.rHi && i < q.width
    ensures 0 < q.bstep && Touches(w, q, k, r, i)
  {
    WriteInRange(w, q, k, r, i);
    hide Base, Shift;
  }

  /** The checks refuse nothing that stays in range, if there are as many diagonals as the
      submatrix is wide; rows and slots they never refuse without need. */
  lemma ChecksExactly(w: Matrix, q: Spec)
    requires 0 < q.bstep && Writes(q)
    ensures Check(w, q).Success? ==> InRange(w, q)
    ensures q.width <= q.count && InRange(w, q) ==> Check(w, q).Success?
    ensures Check(w, q) in {Failure(RowsOutside), Failure(PastLength)} ==> !InRange(w, q)
  {
    hide Touches, End;
    if Check(w, q).Success? {
      forall k: nat, r: nat, i: nat | k < q.count && q.rLo <= r <= q.rHi && i < q.width
        ensures Touches(w, q, k, r, i)
      {
        TouchesInRange(w, q, k, r, i);
      }
    } else if InRange(w, q) {
      LastTouches(w, q);
      if q.width <= q.count { ColumnsReached(w, q); }
      hide InRange;
    }
  }

  /** The last row that is read and the last slot that is written. */
  lemma LastTouches(w: Matrix, q: Spec)
    requires 0 < q.bstep && Writes(q) && InRange(w, q)
    ensures q.row0 + q.width <= |w| && End(q) <= q.length
  {
    assert Touches(w, q, 0, q.rHi, q.width - 1);
    assert Touches(w, q, q.count - 1, q.rHi, q.width - 1);
    hide Shift, Base, InRange;
    assert (q.width - 1) % q.width == q.width - 1;
  }

  lemma ColumnsReached(w: Matrix, q: Spec)
    requires 0 < q.bstep && Writes(q) && q.width <= q.count && InRange(w, q) && q.row0 + q.width <= |w|
    ensures Check(w, q) != Failure(ColumnsOutside)
  {
    forall row | q.row0 <= row < q.row0 + q.width
      ensures q.col0 + q.width <= |w[row]|
    {
      var j, last := row - q.row0, q.width - 1;
      var k := if j == last then 0 else j + 1;
      assert (last + k) % q.width == j by { Wraps(last, k, q.width, j); }
      assert Touches(w, q, k, q.rHi, last);
    }
  }

  lemma Wraps(last: nat, k: nat, width: nat, j: nat)
    requires last + 1 == width && j < width && k == (if j == last then 0 else j + 1)
    ensures (last + k) % width == j
  {
    if j < last { assert last + k == width + j; }
  }

  /** What diagonal k of a set is. */
  ghost predicate IsDiagonal(m: Vec, w: Matrix, q: Spec, k: nat)
    requires Check(w, q).Success? && k < q.count
  {
    |m| == q.length && forall p :: 0 <= p < q.length ==> m[p] == Laid(w, q, k, p - Shift(q, k), q.rHi + 1)
  }

  method Diagonals(w: Matrix, q: Spec) returns (d: Result<seq<Vec>>)
    ensures Check(w, q).Failure? ==> d == Failure(Check(w, q).error)
    ensures Check(w, q).Success? ==> d.Success? && |d.value| == q.count
    ensures Check(w, q).Success? ==> forall k :: 0 <= k < q.count ==> IsDiagonal(d.value[k], w, q, k)
  {
    if q.bstep == 0 { return Failure(ZeroBstep); }
    if q.width > 0 && q.count > 0 && q.rLo <= q.rHi {
      if q.row0 + q.width > |w| { return Failure(RowsOutside); }
      for i := 0 to q.width
        invariant forall j :: q.row0 <= j < q.row0 + i ==> q.col0 + q.width <= |w[j]|
      {
        if q.col0 + q.width > |w[q.row0 + i]| { return Failure(ColumnsOutside); }
      }
      if q.rHi * q.region + (q.count - 1) / q.bstep * q.bstep + q.width > q.length { return Failure(PastLength); }
    }
    assert Check(w, q).Success?;
    var ds: seq<Vec> := [];
    for k := 0 to q.count
      invariant |ds| == k && forall j :: 0 <= j < k ==> IsDiagonal(ds[j], w, q, j)
    {
      var m := Diagonal(w, q, k);
      ds := ds + [m];
    }
    d := Success(ds);
  }

  method Diagonal(w: Matrix, q: Spec, k: nat) returns (v: Vec)
    requires Check(w, q).Success? && k < q.count
    ensures IsDiagonal(v, w, q, k)
  {
    var shift := Shift(q, k);
    var m := new real[q.length](_ => 0.0 * q.s);
    hide Base, Shift, Check;
    var r := q.rLo;
    while r <= q.rHi
      invariant q.rLo <= r <= Max(q.rLo, q.rHi + 1)
      invariant forall p :: 0 <= p < q.length ==> m[p] == Laid(w, q, k, p - shift, Min(r, q.rHi + 1))
    {
      FillRegion(m, w, q, k, r);
      r := r + 1;
    }
    v := m[..];
  }

  /** The inner loop: region r of diagonal k. */
  method FillRegion(m: array<real>, w: Matrix, q: Spec, k: nat, r: nat)
    requires Check(w, q).Success? && k < q.count && q.rLo <= r <= q.rHi && m.Length == q.length
    modifies m
    ensures forall p :: 0 <= p < q.length ==>
      m[p] == if Base(q, r) <= p - Shift(q, k) < Base(q, r) + q.width
              then Entry(w, q, k, p - Shift(q, k) - Base(q, r)) else old(m[p])
  {
    var start := Base(q, r) + Shift(q, k);
    hide Base, Shift, Check;
    for i := 0 to q.width
      invariant forall p :: 0 <= p < q.length ==>
        m[p] == if start <= p < start + i then Entry(w, q, k, p - start) else old(m[p])
    {
      WriteInRange(w, q, k, r, i);
      m[start + i] := w[q.row0 + (i + k) % q.width][q.col0 + i] * q.s;
    }
  }

  // ----- the product is the matrix product -----

  /** x holds v, repeated, from the start of every region on. */
  ghost predicate Holds(x: Vec, v: Vec, q: Spec) {
    && |v| == q.width
    && |x| == q.length
    && forall r, t {:trigger Slot(q, r, t)} :: q.rLo <= r <= q.rHi && 0 <= t < 2 * q.width - 1 && 0 < |x| ==>
         x[Slot(q, r, t) % |x|] == v[t % q.width]
  }

  function Slot(q: Spec, r: nat, t: nat): nat {
    Base(q, r) + t
  }

  ghost predicate InRegion(q: Spec, r: nat, p: int) {
    q.rLo <= r <= q.rHi && Slot(q, r, 0) <= p < Slot(q, r, 0) + q.width
  }

  ghost predicate Outside(q: Spec, p: int) {
    forall r: nat :: q.rLo <= r <= q.rHi ==> !InRegion(q, r, p)
  }

  /** The sum over t < m of v[t] * w[row0 + t][col0 + i]. */
  function Dot(v: Vec, w: Matrix, q: Spec, i: nat, m: nat): real
    requires Check(w, q).Success? && Writes(q) && i < q.width && m <= q.width == |v|
  {
    if m == 0 then 0.0 else Dot(v, w, q, i, m - 1) + v[m - 1] * w[q.row0 + (m - 1)][q.col0 + i]
  }

  ghost predicate AreDiagonals(d: seq<Vec>, w: Matrix, q: Spec)
    requires Check(w, q).Success?
  {
    |d| == q.count && forall k :: 0 <= k < q.count ==> IsDiagonal(d[k], w, q, k)
  }

  lemma {:induction false} LaidOutside(w: Matrix, q: Spec, k: nat, at: int, r: nat)
    requires Check(w, q).Success? && k < q.count && r <= q.rHi + 1
    requires forall j :: 0 <= j < r ==> !InRegion(q, j, at)
    ensures Laid(w, q, k, at, r) == 0.0
  {
    hide Check, Entry, Base;
    if r > q.rLo {
      assert !InRegion(q, r - 1, at);
      LaidOutside(w, q, k, at, r - 1);
    }
  }

  lemma {:induction false} LaidInside(w: Matrix, q: Spec, k: nat, at: int, r: nat, above: nat)
    requires Check(w, q).Success? && k < q.count && q.width <= q.region
    requires InRegion(q, r, at) && r < above <= q.rHi + 1
    ensures Writes(q) && Laid(w, q, k, at, above) == Entry(w, q, k, at - Base(q, r))
  {
    hide Check, Entry, Base;
    if r < above - 1 {
      BaseMonotone(q, r, above - 1);
      LaidInside(w, q, k, at, r, above - 1);
    }
  }

  lemma EntryInside(d: seq<Vec>, w: Matrix, q: Spec, k: nat, r: nat, i: nat)
    requires Check(w, q).Success? && k < q.count && q.width <= q.region && AreDiagonals(d, w, q)
    requires q.rLo <= r <= q.rHi && i < q.width
    ensures Slot(q, r, i) + Shift(q, k) < q.length == |d[k]|
    ensures d[k][Slot(q, r, i) + Shift(q, k)] == Entry(w, q, k, i)
  {
    hide Check, Base, Shift, Entry, Laid;
    var p := Slot(q, r, i);
    WriteInRange(w, q, k, r, i);
    assert IsDiagonal(d[k], w, q, k);
    assert d[k][p + Shift(q, k)] == Laid(w, q, k, p + Shift(q, k) - Shift(q, k), q.rHi + 1);
    assert InRegion(q, r, p);
    LaidInside(w, q, k, p, r, q.rHi + 1);
  }

  lemma SlotTermAt(x: Vec, d: seq<Vec>, bstep: nat, p: nat, k: nat, shift: nat)
    requires 0 < bstep && Encodable(d, |x|) && k < |d| && |d[k]| == |x| && p + shift < |x|
    requires shift == k / bstep * bstep
    ensures SlotTerm(x, d, bstep, p, k) == x[(p + k) % |x|] * d[k][p + shift]
  {
    EncodeFull(d[k]);
    ModSmall(p + shift, |x|);
    assert bstep * (k / bstep) == shift;
  }

  lemma TermInside(x: Vec, v: Vec, d: seq<Vec>, w: Matrix, q: Spec, k: nat, r: nat, i: nat)
    requires Check(w, q).Success? && k < q.count == q.width <= q.region && Holds(x, v, q)
    requires AreDiagonals(d, w, q) && q.rLo <= r <= q.rHi && i < q.width
    ensures Slot(q, r, i) < |x| && Encodable(d, |x|)
    ensures SlotTerm(x, d, q.bstep, Slot(q, r, i), k)
         == v[(i + k) % q.width] * (w[q.row0 + (i + k) % q.width][q.col0 + i] * q.s)
  {
    hide SlotTerm, Check, Laid, Base, IsDiagonal;
    ChecksBstep(w, q);
    EntryInside(d, w, q, k, r, i);
    EncodableDiagonals(d, w, q);
    SlotTermAt(x, d, q.bstep, Slot(q, r, i), k, Shift(q, k));
    assert Slot(q, r, i + k) == Slot(q, r, i) + k;
  }

  lemma DiagonalCount(d: seq<Vec>, w: Matrix, q: Spec)
    requires Check(w, q).Success? && AreDiagonals(d, w, q)
    ensures |d| == q.count
  {}

  lemma EncodableDiagonals(d: seq<Vec>, w: Matrix, q: Spec)
    requires Check(w, q).Success? && AreDiagonals(d, w, q)
    ensures Encodable(d, q.length)
  {
    forall k | 0 <= k < |d| ensures |d[k]| <= q.length {
      assert IsDiagonal(d[k], w, q, k);
    }
  }

  lemma WrapBack(p: nat, shift: nat, n: nat)
    requires p < n
    ensures 0 <= (p + shift) % n - shift ==> (p + shift) % n - shift == p
  {
    var at := (p + shift) % n - shift;
    if 0 <= at {
      DivModUnique(p, (p + shift) / n, at, n);
      ModSmall(p, n);
    }
  }

  lemma TermOutside(x: Vec, d: seq<Vec>, w: Matrix, q: Spec, k: nat, p: nat)
    requires Check(w, q).Success? && k < q.count && |x| == q.length && p < |x|
    requires AreDiagonals(d, w, q) && Outside(q, p)
    ensures Encodable(d, |x|) && 0 < q.bstep && SlotTerm(x, d, q.bstep, p, k) == 0.0
  {
    ChecksBstep(w, q);
    EncodableDiagonals(d, w, q);
    var shift := Shift(q, k);
    assert shift == q.bstep * (k / q.bstep);
    hide Base, Check, Entry, Laid, Shift;
    var a := (p + shift) % |x|;
    var at := a - shift;
    WrapBack(p, shift, |x|);
    EncodeFull(d[k]);
    assert IsDiagonal(d[k], w, q, k);
    assert d[k][a] == Laid(w, q, k, at, q.rHi + 1);
    forall r: nat | q.rLo <= r <= q.rHi ensures !InRegion(q, r, at) {
      assert !InRegion(q, r, p);
    }
    LaidOutside(w, q, k, at, q.rHi + 1);
  }

  // ----- a cyclic shift of the summands keeps the sum -----

  function Sum(f: seq<real>, lo: nat, hi: nat): real
    requires hi <= |f|
    decreases hi
  {
    if hi <= lo then 0.0 else Sum(f, lo, hi - 1) + f[hi - 1]
  }

  function CyclicSum(f: seq<real>, i: nat, m: nat): real
    requires 0 < |f|
  {
    if m == 0 then 0.0 else CyclicSum(f, i, m - 1) + f[(i + (m - 1)) % |f|]
  }

  lemma {:induction false} SumSplit(f: seq<real>, lo: nat, mid: nat, hi: nat)
    requires lo <= mid <= hi <= |f|
    ensures Sum(f, lo, hi) == Sum(f, lo, mid) + Sum(f, mid, hi)
    decreases hi
  {
    if mid < hi {
      SumSplit(f, lo, mid, hi - 1);
    }
  }

  lemma {:induction false} CyclicSumIsSum(f: seq<real>, i: nat, m: nat)
    requires i < |f| && m <= |f|
    ensures CyclicSum(f, i, m) ==
      if i + m <= |f| then Sum(f, i, i + m) else Sum(f, i, |f|) + Sum(f, 0, i + m - |f|)
  {
    if m > 0 {
      CyclicSumIsSum(f, i, m - 1);
      var last := i + (m - 1);
      if last < |f| {
        ModSmall(last, |f|);
      } else {
        DivModUnique(last, 1, last - |f|, |f|);
      }
    }
  }

  /** The summands of the scaled dot product. */
  function Products(v: Vec, w: Matrix, q: Spec, i: nat): (f: seq<real>)
    requires Check(w, q).Success? && Writes(q) && i < q.width == |v|
    ensures |f| == q.width
  {
    seq(q.width, t requires 0 <= t < q.width => v[t] * (w[q.row0 + t][q.col0 + i] * q.s))
  }

  lemma {:induction false} DotIsSum(v: Vec, w: Matrix, q: Spec, i: nat, m: nat)
    requires Check(w, q).Success? && Writes(q) && i < q.width == |v| && m <= q.width
    ensures q.s * Dot(v, w, q, i, m) == Sum(Products(v, w, q, i), 0, m)
  {
    if m > 0 {
      DotIsSum(v, w, q, i, m - 1);
    }
  }

  lemma {:induction false} SumsAgree(x: Vec, d: seq<Vec>, bstep: nat, p: nat, f: seq<real>, i: nat, m: nat)
    requires 0 < bstep && Encodable(d, |x|) && p < |x| && m <= |d| && 0 < |f|
    requires forall k :: 0 <= k < m ==> SlotTerm(x, d, bstep, p, k) == f[(i + k) % |f|]
    ensures SlotSum(x, d, bstep, p, m) == CyclicSum(f, i, m)
  {
    hide SlotTerm, Encodable;
    if m > 0 {
      SumsAgree(x, d, bstep, p, f, i, m - 1);
    }
  }

  lemma SlotInLength(w: Matrix, q: Spec, r: nat, i: nat)
    requires Check(w, q).Success? && 0 < q.count && q.rLo <= r <= q.rHi && i < q.width
    ensures Slot(q, r, i) < q.length
  {
    WriteInRange(w, q, 0, r, i);
  }

  lemma InsideSum(x: Vec, v: Vec, d: seq<Vec>, w: Matrix, q: Spec, r: nat, i: nat)
    requires Check(w, q).Success? && 0 < q.count == q.width <= q.region && Holds(x, v, q)
    requires AreDiagonals(d, w, q) && q.rLo <= r <= q.rHi && i < q.width
    ensures Slot(q, r, i) < |x| && Encodable(d, |x|)
    ensures SlotSum(x, d, q.bstep, Slot(q, r, i), q.width) == CyclicSum(Products(v, w, q, i), i, q.width)
  {
    hide Encode, Check, SlotTerm, SlotSum, CyclicSum, IsDiagonal, Base, Encodable;
    ChecksBstep(w, q);
    EncodableDiagonals(d, w, q);
    SlotInLength(w, q, r, i);
    var f := Products(v, w, q, i);
    forall k | 0 <= k < q.width
      ensures SlotTerm(x, d, q.bstep, Slot(q, r, i), k) == f[(i + k) % |f|]
    {
      TermInside(x, v, d, w, q, k, r, i);
    }
    SumsAgree(x, d, q.bstep, Slot(q, r, i), f, i, q.width);
  }

  lemma {:induction false} OutsideSum(x: Vec, d: seq<Vec>, w: Matrix, q: Spec, p: nat, m: nat)
    requires Check(w, q).Success? && m <= q.count && |x| == q.length && p < |x|
    requires AreDiagonals(d, w, q) && Outside(q, p)
    ensures Encodable(d, |x|) && SlotSum(x, d, q.bstep, p, m) == 0.0
  {
    if m > 0 {
      OutsideSum(x, d, w, q, p, m - 1);
      TermOutside(x, d, w, q, m - 1, p);
    }
  }

  /** y is s times the product of v and the submatrix in every region, and 0 in
      every slot outside the regions. */
  ghost predicate IsMatrixProduct(y: Ct, v: Vec, w: Matrix, q: Spec)
    requires Check(w, q).Success? && |v| == q.width && 0 < q.count
  {
    && y.Some? && |y.value| == q.length
    && (forall r: nat, i: nat :: q.rLo <= r <= q.rHi && i < q.width ==>
          Slot(q, r, i) < q.length && y.value[Slot(q, r, i)] == q.s * Dot(v, w, q, i, q.width))
    && (forall p :: 0 <= p < q.length && Outside(q, p) ==>
          y.value[p] == 0.0)
  }

  lemma SlotInside(x: Vec, v: Vec, d: seq<Vec>, w: Matrix, q: Spec, r: nat, i: nat)
    requires Check(w, q).Success? && AreDiagonals(d, w, q) && Encodable(d, |x|)
    requires 0 < q.count == q.width <= q.region && Holds(x, v, q)
    requires q.rLo <= r <= q.rHi && i < q.width
    ensures Slot(q, r, i) < q.length
    ensures TermSum(x, d, q.bstep, 0, q.count)[Slot(q, r, i)] == q.s * Dot(v, w, q, i, q.width)
  {
    hide IsDiagonal, Check, SlotSum, TermSum, CyclicSum, Dot, Encodable, Base;
    ChecksBstep(w, q);
    InsideSum(x, v, d, w, q, r, i);
    ProductSlot(x, d, q.bstep, Slot(q, r, i), q.width);
    var f := Products(v, w, q, i);
    CyclicSumIsSum(f, i, q.width);
    SumSplit(f, 0, i, q.width);
    DotIsSum(v, w, q, i, q.width);
  }

  /** linear_transform over bsgs_diagonals multiplies v by the submatrix. */
  lemma ProductIsMatrixProduct(x: Vec, v: Vec, d: seq<Vec>, w: Matrix, q: Spec)
    requires Check(w, q).Success? && AreDiagonals(d, w, q)
    requires 0 < q.count == q.width <= q.region && |x| == q.length && |v| == q.width && Holds(x, v, q)
    ensures Encodable(d, |x|)
    ensures IsMatrixProduct(LinearTransform.Product(x, d, q.bstep), v, w, q)
  {
    hide Check, AreDiagonals, Holds, Outside, SlotSum, TermSum, Dot, Encodable, Slot;
    DiagonalCount(d, w, q);
    ChecksBstep(w, q);
    EncodableDiagonals(d, w, q);
    var y := TermSum(x, d, q.bstep, 0, q.count);
    forall r: nat, i: nat | q.rLo <= r <= q.rHi && i < q.width
      ensures Slot(q, r, i) < q.length && y[Slot(q, r, i)] == q.s * Dot(v, w, q, i, q.width)
    {
      SlotInside(x, v, d, w, q, r, i);
    }
    forall p | 0 <= p < q.length && Outside(q, p)
      ensures y[p] == 0.0
    {
      OutsideSum(x, d, w, q, p, q.count);
      ProductSlot(x, d, q.bstep, p, q.count);
    }
  }

  /** The emitted code, end to end: bsgs_diagonals, then the transform in any mode. */
  method MatrixProduct(mode: LinearTransform.Mode, x: Vec, ghost v: Vec, w: Matrix, q: Spec)
    returns (y: Result<Ct>)
    requires |x| == q.length
    ensures Check(w, q).Failure? ==> y == Failure(Check(w, q).error)
    ensures Check(w, q).Success? ==> y.Success?
    ensures Check(w, q).Success? && 0 < q.count == q.width <= q.region && Holds(x, v, q) ==>
      IsMatrixProduct(y.value, v, w, q)
  {
    hide Check, IsDiagonal, Encodable, IsMatrixProduct;
    var d := Diagonals(w, q);
    if d.Failure? { return Failure(d.error); }
    EncodableDiagonals(d.value, w, q);
    ChecksBstep(w, q);
    var t := TransformLoop(mode, x, d.value, q.bstep);
    if 0 < q.count == q.width <= q.region && Holds(x, v, q) {
      ProductIsMatrixProduct(x, v, d.value, w, q);
    }
    y := Success(t);
  }
}
