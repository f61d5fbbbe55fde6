/** Names that end in an underscore and a number: the name and the number can be told
    apart again, because a number has no underscore in it. Inputs of a recording, probes
    and the files of a wire are all named like this; `FacadeNames` and `WireKeys` rest
    their statements on distinct names on the two lemmas at the end. Numbers are written
    in decimal, and a file's may have zeros before them, which is why the first lemma is
    about any two runs of digits. */
module NumberedNames {
  import opened Symbolic
  import Lexing
  import PrintedTokens

  predicate AllDigits(s: string) {
    forall c :: c in s ==> Lexing.IsDigit(c)
  }

  lemma DecimalDigits(n: nat)
    ensures AllDigits(Decimal(n)) && |Decimal(n)| > 0
  {}

  lemma DecimalInjective(m: nat, n: nat)
    requires Decimal(m) == Decimal(n)
    ensures m == n
  {
    PrintedTokens.DecimalValue(m);
    PrintedTokens.DecimalValue(n);
  }

  /** The last underscore tells the name from the digits. */
  lemma LastUnderscore(a: string, b: string, d: string, e: string)
    requires a + "_" + d == b + "_" + e && AllDigits(d) && AllDigits(e)
    ensures a == b && d == e
  {
    var s := a + "_" + d;
    assert '_' !in d && '_' !in e;
    assert s[|s| - |d| - 1] == '_' && s[|s| - |e| - 1] == '_';
    assert forall k :: 0 <= k < |d| ==> s[|s| - |d| + k] == d[k];
    assert forall k :: 0 <= k < |e| ==> s[|s| - |e| + k] == e[k];
    assert |d| == |e|;
    assert s[|s| - |d|..] == d && s[|s| - |e|..] == e;
    assert s[..|s| - |d| - 1] == a && s[..|s| - |e| - 1] == b;
  }

  lemma NumberTold(a: string, b: string, m: nat, n: nat)
    requires a + "_" + Decimal(m) == b + "_" + Decimal(n)
    ensures a == b && m == n
  {
    DecimalDigits(m);
    DecimalDigits(n);
    hide Decimal;
    LastUnderscore(a, b, Decimal(m), Decimal(n));
    DecimalInjective(m, n);
  }
}
