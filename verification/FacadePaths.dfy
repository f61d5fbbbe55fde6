/** What the facade takes from a path: the stem that names an output, the one word that
    names an input, and whether the file is one of the facade's own probes. */
module FacadePaths {
  import opened Facade

  // ----- probes -----

  predicate At(s: string, part: string, i: int) {
    0 <= i <= |s| - |part| && s[i..i + |part|] == part
  }

  lemma AtNext(s: string, part: string, i: int)
    requires |s| > 0
    ensures i > 0 ==> (At(s, part, i) <==> At(s[1..], part, i - 1))
  {
    if 0 < i <= |s| - |part| { assert s[1..][i - 1..i - 1 + |part|] == s[i..i + |part|]; }
  }

  lemma {:induction false} ContainsAt(s: string, part: string)
    ensures Contains(s, part) <==> exists i :: At(s, part, i)
  {
    if StartsWith(s, part) {
      assert At(s, part, 0);
    } else if |s| > 0 {
      ContainsAt(s[1..], part);
      if i :| At(s, part, i) {
        AtNext(s, part, i);
        assert i > 0;
      }
      if i :| At(s[1..], part, i) { AtNext(s, part, i + 1); }
    } else if i :| At(s, part, i) {
      assert false;
    }
  }

  /** A probe file is one with the directory's name somewhere in its path. */
  lemma ProbeFiles(path: string)
    ensures IsProbeFile(path) <==> exists i :: At(path, PROBE_DIRECTORY, i)
  {
    ContainsAt(path, PROBE_DIRECTORY);
  }

  // ----- stems -----

  lemma {:induction false} AfterLastIs(before: string, c: char, r: string)
    requires c !in r
    ensures AfterLast(before + [c] + r, c) == r && AfterLast(r, c) == r
    decreases |before|
  {
    var s := before + [c] + r;
    assert s[|before|] == c;
    if |before| == 0 {
      assert s[1..] == r;
    } else {
      assert s[1..] == before[1..] + [c] + r;
      AfterLastIs(before[1..], c, r);
    }
  }

  lemma {:induction false} BeforeLastIs(before: string, c: char, r: string)
    requires c !in r
    ensures c in before + [c] + r && BeforeLast(before + [c] + r, c) == before
    decreases |before|
  {
    var s := before + [c] + r;
    assert s[|before|] == c;
    if |before| == 0 {
      assert s[1..] == r;
    } else {
      assert s[1..] == before[1..] + [c] + r;
      BeforeLastIs(before[1..], c, r);
      assert [s[0]] + before[1..] == before;
    }
  }

  /** Empty, or up to and with a slash. */
  predicate Directory(dir: string) {
    |dir| > 0 ==> dir[|dir| - 1] == '/'
  }

  lemma FileName(dir: string, name: string)
    requires Directory(dir) && '/' !in name
    ensures AfterLast(dir + name, '/') == name
  {
    if |dir| > 0 {
      var n := |dir| - 1;
      assert dir + name == dir[..n] + ['/'] + name;
      AfterLastIs(dir[..n], '/', name);
    } else {
      assert dir + name == name;
      AfterLastIs("", '/', name);
    }
  }

  /** The stem is the file's name without its last extension. */
  lemma StemOfFile(dir: string, base: string, extension: string)
    requires Directory(dir) && '/' !in base && '/' !in extension && '.' !in extension && |base| > 0
    requires base + "." + extension != ".."
    ensures Stem(dir + (base + "." + extension)) == base
  {
    var name := base + "." + extension;
    assert name == base + ['.'] + extension && name[|base|] == '.' && |name| >= 2;
    assert '/' !in name;
    FileName(dir, name);
    BeforeLastIs(base, '.', extension);
  }

  /** A name without a dot, and a hidden file's, are their own stems. */
  lemma StemOfPlain(dir: string, name: string)
    requires Directory(dir) && '/' !in name && '.' !in name
    ensures Stem(dir + name) == name && Stem(dir + ("." + name)) == "." + name
  {
    FileName(dir, name);
    FileName(dir, "." + name);
    BeforeLastIs("", '.', name);
    assert "" + ['.'] + name == "." + name && ("." + name)[0] == '.';
  }

  // ----- one word for a path -----

  function WithoutBin(path: string): string {
    if |path| >= 4 && path[|path| - 4..] == ".bin" then path[..|path| - 4] else path
  }

  lemma {:induction false} EscapedAt(s: string)
    ensures forall i :: 0 <= i < |s| ==> Escaped(s)[i] == if IsSeparator(s[i]) then '_' else s[i]
  {
    if |s| > 0 { EscapedAt(s[1..]); }
  }

  lemma {:induction false} WithoutLeadingIs(s: string) returns (n: nat)
    ensures n <= |s| && WithoutLeading(s) == s[n..] && (forall i :: 0 <= i < n ==> s[i] == '_')
    ensures n < |s| ==> s[n] != '_'
  {
    if |s| > 0 && s[0] == '_' {
      var k := WithoutLeadingIs(s[1..]);
      n := k + 1;
      forall i | 0 <= i < n ensures s[i] == '_' { if i > 0 { assert s[i] == s[1..][i - 1]; } }
      if n < |s| { assert s[n] == s[1..][k]; }
      assert s[1..][k..] == s[n..];
    } else {
      n := 0;
    }
  }

  /** The name is the path without `.bin`, separators made underscores, from the first
      character on that is none; or all of it when there are only underscores. */
  lemma UniqueNameIs(path: string) returns (n: nat)
    ensures var s := WithoutBin(path);
      && n <= |s| && |UniqueName(path)| == |s| - n
      && (forall i :: 0 <= i < |s| - n ==>
            UniqueName(path)[i] == if IsSeparator(s[n + i]) then '_' else s[n + i])
      && (forall i :: 0 <= i < n ==> s[i] == '_' || IsSeparator(s[i]))
      && (UniqueName(path) == "" || UniqueName(path)[0] != '_' ||
          (n == 0 && forall i :: 0 <= i < |s| ==> s[i] == '_' || IsSeparator(s[i])))
  {
    var s := WithoutBin(path);
    EscapedAt(s);
    var k := WithoutLeadingIs(Escaped(s));
    n := if k == |s| then 0 else k;
    hide Escaped, WithoutLeading;
    assert UniqueName(path) == Escaped(s)[n..];
  }

  /** What is one word for a path: no slash of either kind, no colon and no space. */
  lemma NoSeparators(path: string)
    ensures forall c :: c in "/\\: " ==> c !in UniqueName(path)
    ensures forall c :: c in WithoutBin(path) && c !in "/\\: _" ==> c in UniqueName(path)
  {
    var s := WithoutBin(path);
    var n := UniqueNameIs(path);
    hide UniqueName, WithoutBin;
    forall c | c in s && c !in "/\\: _" ensures c in UniqueName(path) {
      var i :| 0 <= i < |s| && s[i] == c;
      assert i >= n && UniqueName(path)[i - n] == c;
    }
  }

  /** A word without separators that does not begin with an underscore is its own name. */
  lemma PlainWord(word: string)
    requires |word| > 0 && word[0] != '_' && (forall c :: c in word ==> !IsSeparator(c)) && WithoutBin(word) == word
    ensures UniqueName(word) == word && UniqueName(word + ".bin") == word
  {
    assert (word + ".bin")[|word + ".bin"| - 4..] == ".bin" && WithoutBin(word + ".bin") == word;
    EscapedAt(word);
    assert Escaped(word) == word;
  }
}
