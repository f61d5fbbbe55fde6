/** nb_linear_transform(s) on the fused engine: a product whose diagonals exceed the
    memory budget is split into chunks of whole giant steps. */
module Chunks {
  import opened Slots
  import opened LinearTransform

  /** The memory there is, and what a ciphertext's parameters and level make a diagonal of. */
  datatype Device = Device(budget: real, depth: nat, level: nat, ring: nat)
  {
    predicate Usable() {
      0.0 <= budget && 0 < ring
    }

    /** Towers left at the level: never none. */
    function Towers(): nat {
      if depth + 1 > level then depth + 1 - level else 1
    }

    /** Bytes one diagonal of every set takes: twice its 64-bit words in every tower. */
    function PerDiagonal(sets: nat): (per: real)
      ensures Usable() && 0 < sets ==> 0.0 < per
    {
      2.0 * Towers() as real * ring as real * 8.0 * sets as real
    }
  }

  /** The giant steps a budget allows, one at least. */
  function Giants(budget: real, per: real, bstep: nat): (giants: nat)
    requires 0.0 <= budget && 0.0 < per && 0 < bstep
    ensures 0 < giants
  {
    Max(1, (budget / (per * bstep as real)).Floor)
  }

  /** nb_lt_chunk: how many diagonals one call takes. */
  function LtChunk(dev: Device, sets: nat, n: nat, bstep: nat): (chunk: nat)
    requires dev.Usable() && 0 < sets && 0 < bstep
  {
    Min(Giants(dev.budget, dev.PerDiagonal(sets), bstep) * bstep, n)
  }

  /** nb_lt_slice */
  function LtSlice(d: Diagonals, k0: nat, n: nat): (r: Diagonals)
    requires k0 <= |d|
  {
    d[k0..Min(|d|, k0 + n)]
  }

  datatype Call = Call(offset: nat, part: Diagonals)

  /** The engine calls the split makes from k0 on. */
  function Calls(d: Diagonals, chunk: nat, k0: nat): (r: seq<Call>)
    requires 0 < chunk
    decreases |d| - k0
  {
    if |d| <= k0 then [] else [Call(k0, LtSlice(d, k0, chunk))] + Calls(d, chunk, k0 + chunk)
  }

  /** The engine's contract: the transform over rotations offset .. offset + |part| - 1,
      every diagonal counter-rotated by its giant step in the whole product. */
  function EngineTransform(x: Vec, part: Diagonals, bstep: nat, offset: nat): (r: Vec)
    requires 0 < bstep && Encodable(part, |x|)
    ensures |r| == |x|
    decreases |part|
  {
    if |part| == 0 then Zero(|x|)
    else
      var k := |part| - 1;
      Plus(EngineTransform(x, part[..k], bstep, offset),
           RotatedProduct(x, part[k], (offset + k) % bstep, bstep * ((offset + k) / bstep)))
  }

  lemma {:induction false} EngineTransformIsTermSum(x: Vec, d: Diagonals, bstep: nat, k0: nat, hi: nat)
    requires 0 < bstep && Encodable(d, |x|) && k0 <= hi <= |d|
    ensures EngineTransform(x, d[k0..hi], bstep, k0) == TermSum(x, d, bstep, k0, hi)
    decreases hi
  {
    if k0 < hi {
      hide RotatedProduct, Plus;
      EngineTransformIsTermSum(x, d, bstep, k0, hi - 1);
      assert d[k0..hi][..hi - k0 - 1] == d[k0..hi - 1];
      assert d[k0..hi][hi - k0 - 1] == d[hi - 1];
    }
  }

  // ----- what the chunks are -----

  function Concat(calls: seq<Call>): Diagonals {
    if |calls| == 0 then [] else calls[0].part + Concat(calls[1..])
  }

  /** The chunks partition the diagonals, in order, and call i starts at i * chunk. */
  lemma {:induction false} CallsPartition(d: Diagonals, chunk: nat, k0: nat)
    requires 0 < chunk && k0 <= |d|
    ensures Concat(Calls(d, chunk, k0)) == d[k0..]
    ensures forall c :: c in Calls(d, chunk, k0) ==> 0 < |c.part| <= chunk
    decreases |d| - k0
  {
    if k0 < |d| {
      var rest := Calls(d, chunk, k0 + chunk);
      assert Calls(d, chunk, k0)[1..] == rest;
      if k0 + chunk <= |d| {
        CallsPartition(d, chunk, k0 + chunk);
        assert d[k0..] == d[k0..k0 + chunk] + d[k0 + chunk..];
      } else {
        assert rest == [];
      }
    }
  }

  predicate Affordable(m: nat, bstep: nat, dev: Device, sets: nat) {
    m as real * dev.PerDiagonal(sets) <= dev.budget || m <= bstep
  }

  lemma {:induction false} CallsAt(d: Diagonals, chunk: nat, bstep: nat, k0: nat, c: Call)
    requires 0 < chunk && 0 < bstep && k0 % bstep == 0 && c in Calls(d, chunk, k0)
    requires chunk % bstep == 0 || |d| <= k0 + chunk
    ensures c.offset % bstep == 0 && |c.part| <= chunk
    decreases |d| - k0
  {
    var calls := Calls(d, chunk, k0);
    if c != calls[0] {
      assert c in calls[1..];
      ModPlus(k0, chunk, bstep);
      CallsAt(d, chunk, bstep, k0 + chunk, c);
    }
  }

  lemma LtChunkFits(dev: Device, sets: nat, n: nat, bstep: nat)
    requires dev.Usable() && 0 < sets && 0 < bstep && 0 < n
    ensures var chunk := LtChunk(dev, sets, n, bstep);
      && 0 < chunk <= n
      && (chunk % bstep == 0 || chunk == n)
      && forall m: nat :: m <= chunk ==> Affordable(m, bstep, dev, sets)
  {
    hide Device.PerDiagonal, Giants, Affordable, Min;
    var giants := Giants(dev.budget, dev.PerDiagonal(sets), bstep);
    ChunkShape(giants, n, bstep);
    forall m: nat | m <= LtChunk(dev, sets, n, bstep) ensures Affordable(m, bstep, dev, sets) {
      GiantsFit(dev, sets, bstep, m);
    }
  }

  lemma GiantsFit(dev: Device, sets: nat, bstep: nat, m: nat)
    requires dev.Usable() && 0 < sets && 0 < bstep && m <= Giants(dev.budget, dev.PerDiagonal(sets), bstep) * bstep
    ensures Affordable(m, bstep, dev, sets)
  {
    hide Device.PerDiagonal, Giants;
    if bstep < m {
      ChunkFits(dev.budget, dev.PerDiagonal(sets), bstep, Giants(dev.budget, dev.PerDiagonal(sets), bstep), m);
    }
  }

  lemma ChunkShape(giants: nat, n: nat, bstep: nat)
    requires 0 < giants && 0 < n && 0 < bstep
    ensures var chunk := Min(giants * bstep, n);
        0 < chunk <= n && (chunk % bstep == 0 || chunk == n) && chunk <= giants * bstep
  {
    AtLeastOneTimes(giants, bstep);
    DivModUnique(giants * bstep, giants, 0, bstep);
  }

  lemma LtChunkPositive(dev: Device, sets: nat, n: nat, bstep: nat)
    requires dev.Usable() && 0 < sets && 0 < bstep && 0 < n
    ensures 0 < LtChunk(dev, sets, n, bstep)
  {
    LtChunkFits(dev, sets, n, bstep);
  }

  /** Every offset is a giant step's, and no chunk's diagonals exceed the budget
      unless a single giant step's do. */
  lemma CallsFit(d: Diagonals, dev: Device, sets: nat, bstep: nat)
    requires dev.Usable() && 0 < sets && 0 < bstep && 0 < |d|
    ensures 0 < LtChunk(dev, sets, |d|, bstep)
    ensures forall c :: c in Calls(d, LtChunk(dev, sets, |d|, bstep), 0) ==>
      c.offset % bstep == 0 && Affordable(|c.part|, bstep, dev, sets)
  {
    hide LtChunk, Affordable;
    LtChunkFits(dev, sets, |d|, bstep);
    var chunk := LtChunk(dev, sets, |d|, bstep);
    ModSmall(0, bstep);
    forall c | c in Calls(d, chunk, 0)
      ensures c.offset % bstep == 0 && Affordable(|c.part|, bstep, dev, sets)
    {
      CallsAt(d, chunk, bstep, 0, c);
    }
  }

  lemma ChunkFits(budget: real, per: real, bstep: nat, giants: nat, m: nat)
    requires 0.0 <= budget && 0.0 < per && 0 < bstep
    requires giants == Giants(budget, per, bstep)
    requires bstep < m <= giants * bstep
    ensures m as real * per <= budget
  {
    var step := per * bstep as real;
    var q := budget / step;
    Quotient(budget, step);
    RealTimesMonotone(giants as real, q, step);
    RealTimesMonotone(m as real, giants as real * bstep as real, per);
    Rearranged(giants as real, bstep as real, per);
  }

  lemma Quotient(a: real, b: real)
    requires 0.0 < b
    ensures a / b * b == a
  {}

  lemma Rearranged(a: real, b: real, c: real)
    ensures a * b * c == a * (c * b)
  {}

  lemma RealTimesMonotone(a: real, b: real, c: real)
    requires a <= b && 0.0 <= c
    ensures a * c <= b * c
  {}

  /** So many giant steps fit the budget exactly when they are no more than its giants, for
      every number but the one step that is always taken. */
  lemma GiantsAreMost(budget: real, per: real, bstep: nat, steps: nat)
    requires 0.0 <= budget && 0.0 < per && 0 < bstep && 0 < steps
    ensures steps as real * (per * bstep as real) <= budget ==> steps <= Giants(budget, per, bstep)
    ensures 1 < steps <= Giants(budget, per, bstep) ==> steps as real * (per * bstep as real) <= budget
  {
    var step := per * bstep as real;
    var q := budget / step;
    Quotient(budget, step);
    RealTimesLess(0.0, per, bstep as real);
    if steps as real * step <= budget {
      if q < steps as real { RealTimesLess(q, steps as real, step); }
      assert steps as real <= q && steps <= q.Floor;
    }
    if 1 < steps <= Giants(budget, per, bstep) { RealTimesMonotone(steps as real, q, step); }
  }

  lemma RealTimesLess(a: real, b: real, c: real)
    requires a < b && 0.0 < c
    ensures a * c < b * c
  {}

  /** A call takes as much as fits: whole giant steps that fit the budget, and are not more
      than there is, are in it. */
  lemma LtChunkIsMost(dev: Device, sets: nat, n: nat, bstep: nat, steps: nat)
    requires dev.Usable() && 0 < sets && 0 < bstep && 0 < steps && steps * bstep <= n
    requires (steps * bstep) as real * dev.PerDiagonal(sets) <= dev.budget
    ensures steps * bstep <= LtChunk(dev, sets, n, bstep)
  {
    hide Device.PerDiagonal, Giants;
    var per := dev.PerDiagonal(sets);
    Rearranged(steps as real, bstep as real, per);
    assert (steps * bstep) as real == steps as real * bstep as real;
    GiantsAreMost(dev.budget, per, bstep, steps);
    var giants := Giants(dev.budget, per, bstep);
    TimesMonotone(steps, giants, bstep);
  }

  lemma TimesMonotone(a: nat, b: nat, c: nat)
    requires a <= b
    ensures a * c <= b * c
  {}

  // ----- the emitted helpers -----

  /** y is the sum of the chunks before k0. */
  ghost predicate SumsTo(y: Ct, ct: Vec, d: Diagonals, bstep: nat, k0: nat) {
    && 0 < bstep && Encodable(d, |ct|)
    && y == if k0 == 0 then None else Some(TermSum(ct, d, bstep, 0, Min(k0, |d|)))
  }

  lemma NothingSummed(ct: Vec, d: Diagonals, bstep: nat)
    requires 0 < bstep && Encodable(d, |ct|)
    ensures SumsTo(None, ct, d, bstep, 0)
  {}

  lemma AllSummed(y: Ct, ct: Vec, d: Diagonals, bstep: nat, k0: nat)
    requires SumsTo(y, ct, d, bstep, k0) && 0 < |d| <= k0
    ensures y == Product(ct, d, bstep)
  {}

  /** One chunk: the engine call and its addition to the sum so far. */
  method AddChunk(ct: Vec, d: Diagonals, bstep: nat, k0: nat, chunk: nat, y: Ct) returns (y': Ct)
    requires k0 < |d| && 0 < chunk && SumsTo(y, ct, d, bstep, k0)
    ensures SumsTo(y', ct, d, bstep, k0 + chunk)
  {
    hide TermSum, Plus, EngineTransform;
    var part := LtSlice(d, k0, chunk);
    var r := EngineTransform(ct, part, bstep, k0);
    ghost var hi := Min(|d|, k0 + chunk);
    EngineTransformIsTermSum(ct, d, bstep, k0, hi);
    TermSumSplit(ct, d, bstep, 0, k0, hi);
    y' := AddTo(y, r);
  }

  /** nb_linear_transform on an engine with the fused call. */
  method SplitTransform(ct: Vec, d: Diagonals, bstep: nat, dev: Device)
    returns (y: Ct, ghost calls: seq<Call>)
    requires 0 < bstep && Encodable(d, |ct|) && dev.Usable()
    ensures y == Product(ct, d, bstep)
    ensures 0 < |d| ==> 0 < LtChunk(dev, 1, |d|, bstep)
    ensures calls == if |d| == 0 then [] else Calls(d, LtChunk(dev, 1, |d|, bstep), 0)
  {
    calls := [];
    if |d| == 0 {
      y := TransformLoop(LinearTransform.Mode.Loop, ct, d, bstep);
      return;
    }
    hide LtChunk, SumsTo, Product, LtSlice, Encodable;
    NothingSummed(ct, d, bstep);
    var chunk := LtChunk(dev, 1, |d|, bstep);
    LtChunkPositive(dev, 1, |d|, bstep);
    y := None;
    var k0 := 0;
    while k0 < |d|
      invariant 0 <= k0
      invariant calls + Calls(d, chunk, k0) == Calls(d, chunk, 0)
      invariant SumsTo(y, ct, d, bstep, k0)
    {
      y := AddChunk(ct, d, bstep, k0, chunk, y);
      calls := calls + [Call(k0, LtSlice(d, k0, chunk))];
      k0 := k0 + chunk;
    }
    AllSummed(y, ct, d, bstep, k0);
  }

  predicate SameSize(sets: seq<Diagonals>) {
    |sets| > 0 && |sets[0]| > 0 && forall d :: d in sets ==> |d| == |sets[0]|
  }

  /** The sets' engine results for one chunk, added to their sums. */
  method AddChunkToAll(ct: Vec, sets: seq<Diagonals>, bstep: nat, k0: nat, chunk: nat, before: seq<Ct>)
    returns (ys: seq<Ct>)
    requires 0 < chunk && |before| == |sets|
    requires forall t :: 0 <= t < |sets| ==> k0 < |sets[t]| && SumsTo(before[t], ct, sets[t], bstep, k0)
    ensures |ys| == |sets|
    ensures forall t :: 0 <= t < |sets| ==> SumsTo(ys[t], ct, sets[t], bstep, k0 + chunk)
  {
    hide SumsTo;
    ys := before;
    for t := 0 to |sets|
      invariant |ys| == |sets|
      invariant forall j :: t <= j < |sets| ==> ys[j] == before[j]
      invariant forall j :: 0 <= j < t ==> SumsTo(ys[j], ct, sets[j], bstep, k0 + chunk)
    {
      var y := AddChunk(ct, sets[t], bstep, k0, chunk, ys[t]);
      ys := ys[t := y];
    }
  }

  /** nb_linear_transforms on an engine with the fused call; sets of different
      sizes, or none, take the loop. */
  method SplitTransforms(ct: Vec, sets: seq<Diagonals>, bstep: nat, dev: Device) returns (ys: seq<Ct>)
    requires 0 < bstep && dev.Usable() && forall d :: d in sets ==> Encodable(d, |ct|)
    ensures |ys| == |sets|
    ensures forall t :: 0 <= t < |sets| ==> ys[t] == Product(ct, sets[t], bstep)
  {
    if !SameSize(sets) {
      ys := TransformsLoop(LinearTransform.Mode.Loop, ct, sets, bstep);
      return;
    }
    hide LtChunk;
    var n := |sets[0]|;
    LtChunkPositive(dev, |sets|, n, bstep);
    ys := SplitSameSize(ct, sets, bstep, n, LtChunk(dev, |sets|, n, bstep));
  }

  /** The loop over the chunks of sets of n diagonals each. */
  method SplitSameSize(ct: Vec, sets: seq<Diagonals>, bstep: nat, n: nat, chunk: nat) returns (ys: seq<Ct>)
    requires 0 < bstep && 0 < chunk && 0 < n
    requires forall t :: 0 <= t < |sets| ==> |sets[t]| == n && Encodable(sets[t], |ct|)
    ensures |ys| == |sets|
    ensures forall t :: 0 <= t < |sets| ==> ys[t] == Product(ct, sets[t], bstep)
  {
    hide SumsTo, Product, Encodable;
    ys := seq(|sets|, _ => None);
    forall t | 0 <= t < |sets| ensures SumsTo(ys[t], ct, sets[t], bstep, 0) {
      NothingSummed(ct, sets[t], bstep);
    }
    var k0 := 0;
    while k0 < n
      invariant 0 <= k0 && |ys| == |sets| && (n <= k0 ==> 0 < k0)
      invariant forall t :: 0 <= t < |sets| ==> SumsTo(ys[t], ct, sets[t], bstep, k0)
    {
      ys := AddChunkToAll(ct, sets, bstep, k0, chunk, ys);
      k0 := k0 + chunk;
    }
    forall t | 0 <= t < |sets| ensures ys[t] == Product(ct, sets[t], bstep) {
      AllSummed(ys[t], ct, sets[t], bstep, k0);
    }
  }
}
