/** What the lexer passes over: white space, comments to the end of a line, and block
    comments, which nest and end at the `*` `/` that closes them. */
module Comments {
  import opened Lexing

  /** What a block comment holds: characters, and comments. */
  datatype Comment =
    | Done
    | Char(c: char, more: Comment)
    | Nested(inner: Comment, more: Comment)

  const OPENING := "/*"
  const CLOSING := "*/"

  function Inside(k: Comment): string {
    match k
    case Done => ""
    case Char(c, more) => [c] + Inside(more)
    case Nested(inner, more) => OPENING + (Inside(inner) + (CLOSING + Inside(more)))
  }

  /** No character of it, with what comes after it, opens or closes a comment. */
  predicate Plain(k: Comment, after: string) {
    match k
    case Done => true
    case Char(c, more) =>
      var next := At(Inside(more) + after, 0);
      !(c == '/' && next == '*') && !(c == '*' && next == '/') && Plain(more, after)
    case Nested(inner, more) => Plain(inner, CLOSING + (Inside(more) + after)) && Plain(more, after)
  }

  // ----- one step over a text -----

  lemma StepOpens(t: string, depth: nat)
    requires depth > 0
    ensures SkipBlock(OPENING + t, depth) == SkipBlock(t, depth + 1)
  {
    assert (OPENING + t)[2..] == t;
  }

  lemma StepCloses(t: string, depth: nat)
    requires depth > 0
    ensures SkipBlock(CLOSING + t, depth) == SkipBlock(t, depth - 1)
  {
    assert (CLOSING + t)[2..] == t;
  }

  lemma StepOver(c: char, t: string, depth: nat)
    requires depth > 0 && !(c == '/' && At(t, 0) == '*') && !(c == '*' && At(t, 0) == '/')
    ensures SkipBlock([c] + t, depth) == SkipBlock(t, depth)
  {
    var s := [c] + t;
    assert s[1..] == t && At(s, 1) == At(t, 0);
  }

  /** A comment's insides change no depth. */
  lemma {:induction false} InsidePassed(k: Comment, after: string, depth: nat)
    requires depth > 0 && Plain(k, after)
    ensures SkipBlock(Inside(k) + after, depth) == SkipBlock(after, depth)
    decreases k
  {
    hide SkipBlock;
    match k
    case Done => assert Inside(k) + after == after;
    case Char(c, more) =>
      assert Inside(k) + after == [c] + (Inside(more) + after);
      StepOver(c, Inside(more) + after, depth);
      InsidePassed(more, after, depth);
    case Nested(inner, more) =>
      var rest := Inside(more) + after;
      assert Inside(k) + after == OPENING + (Inside(inner) + (CLOSING + rest));
      StepOpens(Inside(inner) + (CLOSING + rest), depth);
      InsidePassed(inner, CLOSING + rest, depth + 1);
      StepCloses(rest, depth + 1);
      InsidePassed(more, after, depth);
  }

  /** What a text at some depth holds before the end of the innermost comment. */
  lemma {:induction false} InsideOf(s: string, depth: nat, t: string) returns (k: Comment, rest: string)
    requires depth > 0 && SkipBlock(s, depth) == Success(t)
    ensures s == Inside(k) + (CLOSING + rest) && Plain(k, CLOSING + rest) && SkipBlock(rest, depth - 1) == Success(t)
    decreases |s|
  {
    if s[0] == '/' && At(s, 1) == '*' {
      assert s == OPENING + s[2..];
      var inner, mid := InsideOf(s[2..], depth + 1, t);
      var more;
      more, rest := InsideOf(mid, depth, t);
      k := Nested(inner, more);
      NestedText(s, inner, more, rest);
    } else if s[0] == '*' && At(s, 1) == '/' {
      k, rest := Done, s[2..];
      assert s == CLOSING + s[2..];
    } else {
      var more;
      more, rest := InsideOf(s[1..], depth, t);
      k := Char(s[0], more);
      assert s == [s[0]] + s[1..];
      assert At(s, 1) == At(s[1..], 0);
    }
  }

  lemma NestedText(s: string, inner: Comment, more: Comment, rest: string)
    requires |s| >= 2 && s[..2] == OPENING
    requires s[2..] == Inside(inner) + (CLOSING + (Inside(more) + (CLOSING + rest)))
    ensures s == Inside(Nested(inner, more)) + (CLOSING + rest)
  {
    assert s == s[..2] + s[2..];
  }

  /** A block comment ends where it is closed: the text after its opening is a comment's
      insides, the closing, and what is left; no other text is taken for one. */
  lemma BlockExactly(s: string, t: string)
    ensures SkipBlock(s, 1) == Success(t)
       <==> exists k :: Plain(k, CLOSING + t) && s == Inside(k) + (CLOSING + t)
  {
    hide SkipBlock;
    if SkipBlock(s, 1) == Success(t) {
      var k, rest := InsideOf(s, 1, t);
      NoDepth(rest);
    }
    if k :| Plain(k, CLOSING + t) && s == Inside(k) + (CLOSING + t) {
      InsidePassed(k, CLOSING + t, 1);
      StepCloses(t, 1);
      NoDepth(t);
    }
  }

  lemma NoDepth(s: string)
    ensures SkipBlock(s, 0) == Success(s)
  {}

  // ----- what lexes to nothing -----

  lemma {:induction false} LineEnds(body: string, t: string)
    requires '\n' !in body && (|t| > 0 ==> t[0] == '\n')
    ensures SkipLine(body + t) == t
  {
    if |body| == 0 {
      assert body + t == t;
    } else {
      assert (body + t)[1..] == body[1..] + t;
      LineEnds(body[1..], t);
    }
  }

  lemma SameFromThere(s: string, t: string)
    requires Skip(s) == Skip(t)
    ensures Lex(s) == Lex(t)
  {
    hide Skip, FirstToken;
  }

  /** White space and comments between the tokens change nothing. */
  lemma BlanksAreNothing(c: char, body: string, k: Comment, t: string)
    requires IsSpace(c) && '\n' !in body && Plain(k, CLOSING + t)
    ensures Lex([c] + t) == Lex(t)
    ensures Lex("//" + (body + ("\n" + t))) == Lex(t) && Lex("//" + body) == Lex("")
    ensures Lex(OPENING + (Inside(k) + (CLOSING + t))) == Lex(t)
  {
    hide Lex;
    assert ([c] + t)[1..] == t;
    SameFromThere([c] + t, t);
    LineIsNothing(body, "\n" + t);
    assert ("\n" + t)[1..] == t;
    SameFromThere("\n" + t, t);
    LineIsNothing(body, "");
    assert body + "" == body;
    BlockIsNothing(k, t);
  }

  lemma LineIsNothing(body: string, t: string)
    requires '\n' !in body && (|t| > 0 ==> t[0] == '\n')
    ensures Lex("//" + (body + t)) == Lex(t)
  {
    hide Lex, SkipLine;
    var s := "//" + (body + t);
    assert s[2..] == body + t;
    LineEnds(body, t);
    SameFromThere(s, t);
  }

  lemma SkipsBlock(body: string, t: string)
    requires SkipBlock(body, 1) == Success(t)
    ensures Skip(OPENING + body) == Skip(t)
  {
    hide SkipBlock, SkipLine;
    assert (OPENING + body)[2..] == body;
  }

  lemma BlockIsNothing(k: Comment, t: string)
    requires Plain(k, CLOSING + t)
    ensures Lex(OPENING + (Inside(k) + (CLOSING + t))) == Lex(t)
  {
    hide Lex, SkipBlock, Skip, Inside;
    var body := Inside(k) + (CLOSING + t);
    InsidePassed(k, CLOSING + t, 1);
    StepCloses(t, 1);
    NoDepth(t);
    SkipsBlock(body, t);
    SameFromThere(OPENING + body, t);
  }
}
