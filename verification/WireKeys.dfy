/** When the keys of two ciphertexts are the same. A key is a directory and a file name, or
    a probe name; the numbers in it are decimal, padded with zeros to four digits or not
    padded. The lemmas take a key apart again: the digits after the last underscore are the
    index, what is before it is the field's name, and a padded index still determines its
    number. Keys of different shapes meet only where a field is named like an element. */
module WireKeys {
  import opened Wires
  import opened NumberedNames
  import opened Symbolic
  import Lexing

  // ----- numbers -----

  lemma {:induction false} ZerosAreDigits(n: nat)
    ensures AllDigits(Zeros(n)) && |Zeros(n)| == n
  {
    if n > 0 { ZerosAreDigits(n - 1); }
  }

  lemma PadDigits(n: nat)
    ensures AllDigits(Pad(n)) && |Pad(n)| > 0
  {
    ZerosAreDigits(if |Decimal(n)| < 4 then 4 - |Decimal(n)| else 0);
  }

  lemma {:induction false} ZeroFirst(s: string)
    requires AllDigits(s)
    ensures AllDigits("0" + s) && Lexing.DigitsValue("0" + s) == Lexing.DigitsValue(s)
  {
    var t := "0" + s;
    assert forall c :: c in t ==> c == '0' || c in s;
    if |s| == 0 {
      assert t[..0] == "";
    } else {
      assert t[..|t| - 1] == "0" + s[..|s| - 1];
      ZeroFirst(s[..|s| - 1]);
    }
  }

  lemma {:induction false} ZerosFirst(n: nat, s: string)
    requires AllDigits(s)
    ensures AllDigits(Zeros(n) + s) && Lexing.DigitsValue(Zeros(n) + s) == Lexing.DigitsValue(s)
  {
    hide Lexing.DigitsValue;
    if n == 0 {
      assert Zeros(0) + s == s;
    } else {
      ZerosFirst(n - 1, s);
      ZeroFirst(Zeros(n - 1) + s);
      assert Zeros(n) + s == "0" + (Zeros(n - 1) + s);
    }
  }

  lemma PadValue(n: nat)
    ensures AllDigits(Pad(n)) && Lexing.DigitsValue(Pad(n)) == n
  {
    PadDigits(n);
    PrintedTokens.DecimalValue(n);
    hide Lexing.DigitsValue, Decimal, Zeros;
    var d := Decimal(n);
    if |d| < 4 { ZerosFirst(4 - |d|, d); }
  }

  function Power(k: nat): (r: nat)
    ensures r >= 1
  {
    if k == 0 then 1 else 10 * Power(k - 1)
  }

  /** A number has at most k digits exactly when it is below 10 to the k. */
  lemma {:induction false} DecimalLength(n: nat, k: nat)
    requires k > 0
    ensures |Decimal(n)| <= k <==> n < Power(k)
    decreases k
  {
    if k > 1 && n >= 10 {
      DecimalLength(n / 10, k - 1);
      assert n / 10 < Power(k - 1) <==> n < 10 * Power(k - 1);
    }
  }

  /** An index is written with four digits, and with more only from 10000 on. */
  lemma FourDigits(n: nat)
    ensures AllDigits(Pad(n)) && Lexing.DigitsValue(Pad(n)) == n
    ensures |Pad(n)| >= 4 && (|Pad(n)| == 4 <==> n < 10000)
    ensures n >= 10000 ==> Pad(n) == Decimal(n)
  {
    PadValue(n);
    assert Power(4) == 10 * (10 * (10 * (10 * Power(0))));
    DecimalLength(n, 4);
    ZerosAreDigits(if |Decimal(n)| < 4 then 4 - |Decimal(n)| else 0);
    hide Lexing.DigitsValue, Decimal;
  }

  lemma PadInjective(m: nat, n: nat)
    requires Pad(m) == Pad(n)
    ensures m == n
  {
    PadValue(m);
    PadValue(n);
  }

  // ----- names -----

  /** A name followed by an underscore and digits. */
  predicate EndsInNumber(name: string) {
    exists k :: 0 <= k < |name| && name[k] == '_' && k + 1 < |name| && AllDigits(name[k + 1..])
  }

  lemma NumberedEnds(name: string, d: string)
    requires AllDigits(d) && |d| > 0
    ensures EndsInNumber(name + "_" + d)
  {
    var s := name + "_" + d;
    assert s[|name|] == '_' && s[|name| + 1..] == d;
  }

  lemma WithoutExt(a: string, b: string)
    requires a + EXT == b + EXT
    ensures a == b
  {
    assert (a + EXT)[..|a|] == a && (b + EXT)[..|b|] == b;
  }

  lemma NumberedInjective(a: string, b: string, i: nat, j: nat)
    requires Numbered(a, i) == Numbered(b, j)
    ensures a == b && i == j
  {
    hide Decimal;
    NumberTold(a, b, i, j);
  }

  lemma PaddedInjective(a: string, b: string, i: nat, j: nat)
    requires Padded(a, i) == Padded(b, j)
    ensures a == b && i == j
  {
    PadDigits(i);
    PadDigits(j);
    hide Pad;
    LastUnderscore(a, b, Pad(i), Pad(j));
    PadInjective(i, j);
  }

  lemma BatchInjective(b: nat, c: nat)
    requires Batch(b) == Batch(c)
    ensures b == c
  {
    hide Pad;
    assert Batch(b)[5..] == Pad(b) && Batch(c)[5..] == Pad(c);
    PadInjective(b, c);
  }

  // ----- keys -----

  lemma ManyInjective(disk: bool, a: string, b: string, i: nat, j: nat)
    requires ManyKey(disk, a, i) == ManyKey(disk, b, j)
    ensures a == b && i == j
  {
    hide Numbered;
    assert ManyKey(disk, a, i)[0] == ManyKey(disk, b, j)[0];
    if disk { WithoutExt(Numbered(a, i), Numbered(b, j)); }
    NumberedInjective(a, b, i, j);
  }

  lemma CellInjective(disk: bool, a: string, b: string, r: nat, q: nat, i: nat, j: nat)
    requires CellKey(disk, a, r, i) == CellKey(disk, b, q, j)
    ensures a == b && r == q && i == j
  {
    hide Numbered, Padded, Batch;
    assert CellKey(disk, a, r, i)[0] == CellKey(disk, b, q, j)[0];
    if disk {
      assert CellKey(disk, a, r, i)[1] == CellKey(disk, b, q, j)[1];
      BatchInjective(r, q);
      WithoutExt(Padded(a, i), Padded(b, j));
      PaddedInjective(a, b, i, j);
    } else {
      NumberedInjective(Numbered(a, r), Numbered(b, q), i, j);
      NumberedInjective(a, b, r, q);
    }
  }

  lemma NumberedNotPlain(a: string, b: string, i: nat)
    requires !EndsInNumber(a)
    ensures a != Numbered(b, i)
  {
    DecimalDigits(i);
    hide Decimal, EndsInNumber;
    NumberedEnds(b, Decimal(i));
  }

  /** A single ciphertext's key is an element's exactly when its name is that element's. */
  lemma OneIsMany(disk: bool, a: string, b: string, i: nat)
    ensures OneKey(disk, a) == ManyKey(disk, b, i) <==> a == Numbered(b, i)
  {
    hide Numbered;
    if OneKey(disk, a) == ManyKey(disk, b, i) {
      assert OneKey(disk, a)[0] == ManyKey(disk, b, i)[0];
      if disk { WithoutExt(a, Numbered(b, i)); }
    }
  }

  /** It is a batch's element's on no disk, and in a recording when its name is that one's. */
  lemma OneIsCell(disk: bool, a: string, b: string, r: nat, i: nat)
    ensures OneKey(disk, a) == CellKey(disk, b, r, i) <==> !disk && a == Numbered(Numbered(b, r), i)
  {
    hide Numbered, Padded, Batch;
    if disk {
      assert |OneKey(disk, a)| == 1 && |CellKey(disk, b, r, i)| == 2;
    } else if OneKey(disk, a) == CellKey(disk, b, r, i) {
      assert OneKey(disk, a)[0] == CellKey(disk, b, r, i)[0];
    }
  }

  /** An element's key is a batch's element's on no disk, and in a recording when the
      element's field is named like the batch and the two have the same index. */
  lemma ManyIsCell(disk: bool, a: string, i: nat, b: string, r: nat, j: nat)
    ensures ManyKey(disk, a, i) == CellKey(disk, b, r, j) <==> !disk && i == j && a == Numbered(b, r)
  {
    hide Numbered, Padded, Batch;
    if disk {
      assert |ManyKey(disk, a, i)| == 1 && |CellKey(disk, b, r, j)| == 2;
    } else if ManyKey(disk, a, i) == CellKey(disk, b, r, j) {
      assert ManyKey(disk, a, i)[0] == CellKey(disk, b, r, j)[0];
      NumberedInjective(a, Numbered(b, r), i, j);
    }
  }

  lemma OneInjective(disk: bool, a: string, b: string)
    requires OneKey(disk, a) == OneKey(disk, b)
    ensures a == b
  {
    assert OneKey(disk, a)[0] == OneKey(disk, b)[0];
    if disk { WithoutExt(a, b); }
  }

  /** Fields of a wire keep their names apart in their base names. */
  lemma BasesEqual(disk: bool, total: nat, a: string, b: string)
    requires total != 1
    ensures BaseName(disk, total, a) == BaseName(disk, total, b) <==> a == b
  {
    assert ("result_" + a)[7..] == a && ("result_" + b)[7..] == b;
  }

  /** A base name is another's with a number exactly when the field's name is. */
  lemma BaseNumbered(disk: bool, total: nat, a: string, b: string, i: nat)
    requires total != 1
    ensures BaseName(disk, total, a) == Numbered(BaseName(disk, total, b), i) <==> a == Numbered(b, i)
    ensures Numbered(BaseName(disk, total, b), i) == BaseName(disk, total, Numbered(b, i))
  {
    hide Decimal;
    if !disk {
      assert Numbered("result_" + b, i) == "result_" + Numbered(b, i);
    }
    BasesEqual(disk, total, a, Numbered(b, i));
  }
}
