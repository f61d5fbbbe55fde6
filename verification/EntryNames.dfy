/** The two checks an archive entry's name has to pass, over the components the
    name has as a POSIX path. */
module EntryNames {
  import opened Bytes

  const SLASH: Byte := 47
  const DOT: Byte := 46
  const DASH: Byte := 45
  const MAX_NAME_LEN := 4096
  const MAX_NAME_PARTS := 64

  datatype NameError =
    | NotRelative | InvalidComponent
    | TooLong | TooDeep | LeadingDash | IllegalCharacter | NoComponent

  datatype Verdict = Fine | Bad(error: NameError)

  // ----- a path's components -----

  function FirstSlash(raw: Data): (i: nat)
    ensures i <= |raw| && (i < |raw| ==> raw[i] == SLASH) && SLASH !in raw[..i]
  {
    if |raw| == 0 || raw[0] == SLASH then 0
    else
      var j := FirstSlash(raw[1..]);
      assert raw[..j + 1] == [raw[0]] + raw[1..][..j];
      j + 1
  }

  function SkipSlashes(raw: Data): (r: Data)
    ensures |r| <= |raw| && (|r| > 0 ==> r[0] != SLASH) && (|raw| > 0 && raw[0] == SLASH ==> |r| < |raw|)
  {
    if |raw| > 0 && raw[0] == SLASH then SkipSlashes(raw[1..]) else raw
  }

  /** The elements a path iterates over: a root directory when it has one, the
      names between runs of slashes, and an empty last one after a trailing slash. */
  function Components(raw: Data): (r: seq<Data>)
    decreases |raw|
  {
    if |raw| == 0 then []
    else
      var i := FirstSlash(raw);
      if i == |raw| then [raw]
      else if i == 0 then [[SLASH]] + Components(SkipSlashes(raw))
      else
        var rest := SkipSlashes(raw[i..]);
        [raw[..i]] + (if |rest| == 0 then [[]] else Components(rest))
  }

  // ----- what the components are -----

  /** A separator: one slash or more. */
  predicate Slashes(s: Data) {
    |s| > 0 && forall c :: c in s ==> c == SLASH
  }

  lemma {:induction false} FirstSlashThen(a: Data, b: Data)
    ensures FirstSlash(a) < |a| ==> FirstSlash(a + b) == FirstSlash(a)
    ensures FirstSlash(a) == |a| ==> FirstSlash(a + b) == |a| + FirstSlash(b)
  {
    if |a| > 0 {
      assert (a + b)[1..] == a[1..] + b;
      FirstSlashThen(a[1..], b);
    } else {
      assert a + b == b;
    }
  }

  lemma {:induction false} NoSlash(a: Data)
    requires SLASH !in a
    ensures FirstSlash(a) == |a|
  {}

  lemma {:induction false} SkipsThen(a: Data, b: Data)
    ensures SkipSlashes(a + b) == if |SkipSlashes(a)| > 0 then SkipSlashes(a) + b else SkipSlashes(b)
  {
    if |a| > 0 && a[0] == SLASH {
      assert (a + b)[1..] == a[1..] + b;
      SkipsThen(a[1..], b);
    } else if |a| == 0 {
      assert a + b == b;
    }
  }

  /** Nothing but slashes is skipped, and all of them. */
  lemma {:induction false} Skipped(a: Data)
    ensures |SkipSlashes(a)| == 0 <==> forall c :: c in a ==> c == SLASH
    ensures |SkipSlashes(a)| > 0 ==> SkipSlashes(a)[|SkipSlashes(a)| - 1] == a[|a| - 1]
  {
    if |a| > 0 && a[0] == SLASH {
      Skipped(a[1..]);
      assert a == [a[0]] + a[1..];
      assert forall c :: c in a <==> c == a[0] || c in a[1..];
      if |a| > 1 { assert a[1..][|a| - 2] == a[|a| - 1]; }
    } else if |a| > 0 {
      assert a[0] in a;
    }
  }

  /** A name without slashes is its only component. */
  lemma OneComponent(a: Data)
    requires |a| > 0 && SLASH !in a
    ensures Components(a) == [a]
  {
    NoSlash(a);
  }

  /** The parts between slashes: of what comes before the first slash, and of the rest. */
  lemma FirstComponent(a: Data, s: Data, b: Data)
    requires SLASH !in a && Slashes(s) && (|b| > 0 ==> b[0] != SLASH)
    ensures Components(a + s + b)
         == if |a| == 0 then [[SLASH]] + Components(b) else [a] + if |b| == 0 then [[]] else Components(b)
  {
    var raw := a + s + b;
    assert raw == a + (s + b) && (s + b)[0] == s[0] && s[0] in s;
    NoSlash(a);
    FirstSlashThen(a, s + b);
    assert FirstSlash(s + b) == 0;
    Skipped(s);
    SkipsThen(s, b);
    assert raw[..|a|] == a && raw[|a|..] == s + b;
  }

  lemma RestLast(a: Data, i: nat)
    requires i == FirstSlash(a) < |a| && a[|a| - 1] != SLASH
    ensures var rest := SkipSlashes(a[i..]);
      0 < |rest| < |a| && rest[|rest| - 1] != SLASH
  {
    var more := a[i..];
    Skipped(more);
    assert more[|more| - 1] == a[|a| - 1] && more[|more| - 1] in more;
  }

  /** The components of two paths with slashes between them are those of both. */
  lemma {:induction false} ComponentsJoin(a: Data, s: Data, b: Data)
    requires |a| > 0 && a[|a| - 1] != SLASH && Slashes(s) && |b| > 0 && b[0] != SLASH
    ensures Components(a + s + b) == Components(a) + Components(b)
    decreases |a|
  {
    hide Components, SkipSlashes, Slashes;
    var i := FirstSlash(a);
    if i == |a| {
      OneComponent(a);
      FirstComponent(a, s, b);
    } else {
      RestLast(a, i);
      var rest := SkipSlashes(a[i..]);
      ComponentsJoin(rest, s, b);
      JoinStep(a, s + b, i);
      assert a + (s + b) == a + s + b && rest + (s + b) == rest + s + b;
    }
  }

  /** What follows is appended to the rest of the path. */
  lemma JoinStep(a: Data, tail: Data, i: nat)
    requires i == FirstSlash(a) < |a| && |SkipSlashes(a[i..])| > 0
    ensures var part := if i == 0 then [[SLASH]] else [a[..i]];
      && Components(a) == part + Components(SkipSlashes(a[i..]))
      && Components(a + tail) == part + Components(SkipSlashes(a[i..]) + tail)
  {
    FirstSlashThen(a, tail);
    SkipsThen(a[i..], tail);
    assert (a + tail)[i..] == a[i..] + tail && (a + tail)[..i] == a[..i];
    if i == 0 { assert a[i..] == a; }
  }

  /** No component but a root has a slash in it, and only an absolute path has a root. */
  lemma {:induction false} NoSlashInside(raw: Data)
    ensures forall k :: 0 <= k < |Components(raw)| && SLASH in Components(raw)[k] ==>
      k == 0 && Components(raw)[k] == [SLASH] && raw[0] == SLASH
    decreases |raw|
  {
    if |raw| > 0 {
      var i := FirstSlash(raw);
      if i < |raw| {
        var rest := SkipSlashes(raw[i..]);
        if |rest| > 0 { NoSlashInside(rest); }
      }
    }
  }

  /** The file an entry is written to: "." components name nothing. */
  function FileKey(raw: Data): seq<Data> {
    WithoutDots(Components(raw))
  }

  function WithoutDots(parts: seq<Data>): (r: seq<Data>)
    ensures |r| <= |parts|
    ensures forall p :: p in r <==> p in parts && p != [DOT]
  {
    if |parts| == 0 then []
    else if parts[0] == [DOT] then WithoutDots(parts[1..])
    else [parts[0]] + WithoutDots(parts[1..])
  }

  /** "." names nothing wherever it stands, and the other components stay in their order. */
  lemma {:induction false} DotsNameNothing(a: seq<Data>, b: seq<Data>)
    ensures WithoutDots(a + b) == WithoutDots(a) + WithoutDots(b)
    ensures [DOT] !in a ==> WithoutDots(a) == a
  {
    if |a| == 0 {
      assert a + b == b;
    } else {
      assert (a + b)[1..] == a[1..] + b;
      assert a == [a[0]] + a[1..] && a[0] in a;
      DotsNameNothing(a[1..], b);
    }
  }

  // ----- what is promised of an accepted name -----

  predicate LegalByte(c: Byte) {
    || 65 <= c <= 90 || 97 <= c <= 122 || 48 <= c <= 57
    || c == 95 || c == DOT || c == DASH || c == 43 || c == 61 || c == 44 || c == 64
  }

  predicate LegalChar(c: char) {
    'A' <= c <= 'Z' || 'a' <= c <= 'z' || '0' <= c <= '9' || c in "_.-+=,@"
  }

  /** The legal bytes are the characters that the projects' own names are made of. */
  lemma LegalBytes(c: Byte)
    ensures LegalByte(c) <==> LegalChar(c as int as char)
  {
    var d := c as int as char;
    assert d in "_.-+=,@" <==> d == '_' || d == '.' || d == '-' || d == '+' || d == '=' || d == ',' || d == '@';
  }

  predicate SafePath(raw: Data) {
    && |raw| > 0 && raw[0] != SLASH
    && [DOT, DOT] !in Components(raw) && [] !in Components(raw)
  }

  predicate LegalComponent(part: Data) {
    |part| > 0 && part[0] != DASH && forall c :: c in part ==> LegalByte(c)
  }

  /** An entry name the readers take off the wire. */
  predicate Admissible(raw: Data) {
    && SafePath(raw)
    && |raw| <= MAX_NAME_LEN
    && 0 < |FileKey(raw)| <= MAX_NAME_PARTS
    && forall part :: part in FileKey(raw) ==> LegalComponent(part)
  }

  // ----- the checks as written -----

  /** validate_relative_path */
  method ValidateRelativePath(raw: Data) returns (v: Verdict)
    ensures v.Fine? <==> SafePath(raw)
    ensures v.Bad? ==> v.error == if |raw| == 0 || raw[0] == SLASH then NotRelative else InvalidComponent
  {
    if |raw| == 0 || raw[0] == SLASH { return Bad(NotRelative); }
    var parts := Components(raw);
    for i := 0 to |parts|
      invariant [DOT, DOT] !in parts[..i] && [] !in parts[..i]
    {
      if parts[i] == [DOT, DOT] || parts[i] == [] { return Bad(InvalidComponent); }
    }
    assert parts[..|parts|] == parts;
    v := Fine;
  }

  /** The first complaint about the components from parts[0] on, `seen` of them counted. */
  function Complaint(parts: seq<Data>, seen: nat): Verdict
    requires [] !in parts
  {
    if |parts| == 0 then if seen == 0 then Bad(NoComponent) else Fine
    else
      assert parts[0] in parts;
      if parts[0] == [DOT] then Complaint(parts[1..], seen)
      else if seen + 1 > MAX_NAME_PARTS then Bad(TooDeep)
      else if parts[0][0] == DASH then Bad(LeadingDash)
      else if exists c :: c in parts[0] && !LegalByte(c) then Bad(IllegalCharacter)
      else Complaint(parts[1..], seen + 1)
  }

  lemma {:induction false} NoComplaint(parts: seq<Data>, seen: nat)
    requires [] !in parts && seen <= MAX_NAME_PARTS
    ensures Complaint(parts, seen).Fine? <==>
      && 0 < seen + |WithoutDots(parts)| <= MAX_NAME_PARTS
      && forall part :: part in WithoutDots(parts) ==> LegalComponent(part)
  {
    if |parts| > 0 {
      assert parts[0] in parts;
      if parts[0] == [DOT] {
        NoComplaint(parts[1..], seen);
      } else if seen + 1 <= MAX_NAME_PARTS {
        NoComplaint(parts[1..], seen + 1);
        assert WithoutDots(parts) == [parts[0]] + WithoutDots(parts[1..]);
        assert forall part :: part in WithoutDots(parts) <==> part == parts[0] || part in WithoutDots(parts[1..]);
      }
    }
  }

  /** validate_untrusted_entry_name, of a name the first check let through. */
  method ValidateUntrustedEntryName(raw: Data) returns (v: Verdict)
    requires SafePath(raw)
    ensures v == if |raw| > MAX_NAME_LEN then Bad(TooLong) else Complaint(Components(raw), 0)
    ensures v.Fine? <==> Admissible(raw)
  {
    var all := Components(raw);
    NoComplaint(all, 0);
    if |raw| > MAX_NAME_LEN { return Bad(TooLong); }
    var parts := 0;
    for k := 0 to |all|
      invariant parts <= MAX_NAME_PARTS
      invariant [] !in all[k..] && Complaint(all[k..], parts) == Complaint(all, 0)
    {
      assert all[k..][1..] == all[k + 1..];
      var component := all[k];
      assert component in all;
      if component != [DOT] {
        parts := parts + 1;
        if parts > MAX_NAME_PARTS { return Bad(TooDeep); }
        if component[0] == DASH { return Bad(LeadingDash); }
        for j := 0 to |component|
          invariant forall c :: c in component[..j] ==> LegalByte(c)
        {
          if !LegalByte(component[j]) { return Bad(IllegalCharacter); }
        }
        assert component[..|component|] == component;
      }
    }
    if parts == 0 { return Bad(NoComponent); }
    v := Fine;
  }

  /** Both checks together, as the readers run them. */
  function NameCheck(raw: Data): (v: Verdict)
    ensures v.Fine? <==> Admissible(raw)
  {
    if |raw| == 0 || raw[0] == SLASH then Bad(NotRelative)
    else if !SafePath(raw) then Bad(InvalidComponent)
    else if |raw| > MAX_NAME_LEN then Bad(TooLong)
    else NoComplaint(Components(raw), 0); Complaint(Components(raw), 0)
  }

  method Validate(raw: Data) returns (v: Verdict)
    ensures v == NameCheck(raw)
  {
    v := ValidateRelativePath(raw);
    if v.Fine? {
      v := ValidateUntrustedEntryName(raw);
    }
  }
}
