/** Little-endian fields of the archive's wire format: the least significant byte first,
    in a field of a given width. Writing a value keeps its remainder modulo 256 to the
    width, which is the value itself when it fits, and reading gives it back. The loops
    that append and read a field byte by byte are proved against these functions, the
    reader's check for a field that is cut off included. */
module Bytes {

  type Byte = b: int | 0 <= b < 256

  type Data = seq<Byte>

  function Pow256(k: nat): (r: nat)
    ensures 0 < r
  {
    if k == 0 then 1 else 256 * Pow256(k - 1)
  }

  /** The low `width` bytes of value, least significant first. */
  function Le(value: nat, width: nat): (r: Data)
    ensures |r| == width
  {
    if width == 0 then [] else [value % 256] + Le(value / 256, width - 1)
  }

  function FromLe(bs: Data): (r: nat)
    ensures r < Pow256(|bs|)
  {
    if |bs| == 0 then 0 else bs[0] + 256 * FromLe(bs[1..])
  }

  lemma {:induction false} FromLeOfLe(value: nat, width: nat)
    ensures FromLe(Le(value, width)) == value % Pow256(width)
  {
    if width > 0 {
      var p, q := Pow256(width - 1), value / 256;
      FromLeOfLe(q, width - 1);
      assert Le(value, width)[1..] == Le(q, width - 1);
      var hi, lo := q / p, q % p;
      assert value == 256 * (hi * p + lo) + value % 256;
      assert 256 * (hi * p) == hi * (256 * p);
      ModUnique(value, hi, 256 * lo + value % 256, 256 * p);
    }
  }

  lemma ModUnique(x: int, q: int, r: int, n: int)
    requires 0 <= r < n && x == q * n + r
    ensures x % n == r
  {
    var d := x / n;
    assert (q - d) * n == q * n - d * n == x % n - r;
    if q > d {
      AtLeast(q - d, n);
    } else if q < d {
      AtLeast(d - q, n);
    }
  }

  lemma AtLeast(a: int, n: int)
    requires 1 <= a && 0 <= n
    ensures n <= a * n
  {}

  /** A value that fits its field reads back as itself. */
  lemma LeRoundTrip(value: nat, width: nat)
    requires value < Pow256(width)
    ensures FromLe(Le(value, width)) == value
  {
    FromLeOfLe(value, width);
    ModUnique(value, 0, value, Pow256(width));
  }

  lemma {:induction false} LeAppend(value: nat, width: nat)
    ensures Le(value, width + 1) == Le(value, width) + [value / Pow256(width) % 256]
  {
    if width > 0 {
      LeAppend(value / 256, width - 1);
      DivDiv(value, Pow256(width - 1));
    }
  }

  lemma DivDiv(value: nat, p: nat)
    requires 0 < p
    ensures value / 256 / p == value / (256 * p)
  {
    var q := value / 256;
    var hi, lo := q / p, q % p;
    assert value == 256 * (hi * p + lo) + value % 256;
    assert 256 * (hi * p) == hi * (256 * p);
    var n, r := 256 * p, 256 * lo + value % 256;
    assert value == hi * n + r && 0 <= r < n;
    var d := value / n;
    assert (hi - d) * n == hi * n - d * n == value % n - r;
    if hi > d {
      AtLeast(hi - d, n);
    } else if hi < d {
      AtLeast(d - hi, n);
    }
  }

  lemma {:induction false} FromLeAppend(bs: Data, b: Byte)
    ensures FromLe(bs + [b]) == FromLe(bs) + Pow256(|bs|) * b
  {
    if |bs| > 0 {
      FromLeAppend(bs[1..], b);
      assert (bs + [b])[1..] == bs[1..] + [b];
      var p := Pow256(|bs| - 1);
      assert 256 * (FromLe(bs[1..]) + p * b) == 256 * FromLe(bs[1..]) + 256 * p * b;
    } else {
      assert (bs + [b])[1..] == [];
    }
  }

  lemma FromLeEmpty(bs: Data)
    requires |bs| == 0
    ensures FromLe(bs) == 0 && Pow256(0) == 1
  {}

  lemma PowStep(i: nat)
    ensures Pow256(i + 1) == 256 * Pow256(i)
  {}

  /** append_le: byte i is (value >> 8 * i) & 0xff. */
  method AppendLe(buf: Data, value: nat, width: nat) returns (r: Data)
    ensures r == buf + Le(value, width)
  {
    r := buf;
    var scale: nat := 1;
    for i := 0 to width
      invariant scale == Pow256(i)
      invariant r == buf + Le(value, i)
    {
      LeAppend(value, i);
      r := r + [value / scale % 256];
      scale := 256 * scale;
    }
  }

  /** read_le: None when the field does not fit in what is left of buf. */
  method ReadLe(buf: Data, pos: nat, width: nat) returns (ok: bool, value: nat, pos': nat)
    requires pos <= |buf|
    ensures ok == (pos + width <= |buf|)
    ensures ok ==> value == FromLe(buf[pos..pos + width]) && pos' == pos + width
    ensures !ok ==> pos' == pos
  {
    ok, value, pos' := true, 0, pos;
    if pos + width > |buf| {
      ok := false;
      return;
    }
    hide FromLe, Pow256;
    var scale: nat := 1;
    FromLeEmpty(buf[pos..pos]);
    for i := 0 to width
      invariant scale == Pow256(i)
      invariant value == FromLe(buf[pos..pos + i])
    {
      var b := buf[pos + i];
      assert buf[pos..pos + (i + 1)] == buf[pos..pos + i] + [b];
      FromLeAppend(buf[pos..pos + i], b);
      PowStep(i);
      value := value + scale * b;
      scale := 256 * scale;
    }
    pos' := pos + width;
  }
}
