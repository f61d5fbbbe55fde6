/** What the lexer makes of one piece of a printed symbolic expression: a name, a number,
    a string, an operator, a space. Each lemma has the text that follows the piece as a
    parameter, because what follows decides where the piece ends: a digit after a name
    would be part of it, and so would a dot after a number. `PrintedText` puts the pieces
    together. The escapes of a string are shown to be undone by the lexer here. */
module PrintedTokens {
  import opened Lexing
  import opened Symbolic

  // ----- the names a program can give its parts -----

  predicate IsIdent(w: string) {
    |w| > 0 && IsWordStart(w[0]) && (forall c :: c in w ==> IsWordChar(c)) && w !in KEYWORDS
  }

  predicate IsQualified(parts: seq<string>) {
    |parts| > 0 && forall p :: p in parts ==> IsIdent(p)
  }

  /** Every name in e is one the parser took for an identifier. */
  predicate WellNamed(e: Sym) {
    match e
    case Flag(_) => true
    case Str(_) => true
    case Num(_) => true
    case Name(_, parts) => IsQualified(parts)
    case Member(of, field) => WellNamed(of) && IsIdent(field)
    case Apply(func, args) => IsQualified(func) && forall a :: a in args ==> WellNamed(a)
    case Neg(arg) => WellNamed(arg)
    case Bin(_, left, right) => WellNamed(left) && WellNamed(right)
  }

  /** e's text ends in the digits of a number: a dot after it makes a float. */
  predicate EndsInNumber(e: Sym) {
    match e
    case Num(_) => true
    case Neg(arg) => EndsInNumber(arg)
    case _ => false
  }

  /** The lexer reads e's text as e's tokens: no string holds a newline, and no field
      is taken of a number. */
  predicate Lexable(e: Sym) {
    match e
    case Flag(_) => true
    case Str(s) => '\n' !in s
    case Num(_) => true
    case Name(_, _) => true
    case Member(of, _) => Lexable(of) && !EndsInNumber(of)
    case Apply(_, args) => forall a :: a in args ==> Lexable(a)
    case Neg(arg) => Lexable(arg)
    case Bin(_, left, right) => Lexable(left) && Lexable(right)
  }

  // ----- tokens, put in front of what follows -----

  type Lexes = Result<seq<Token>>

  function Word(w: string): Token { Token(IDENT, w) }

  function PutName(parts: seq<string>, r: Lexes): Lexes {
    if |parts| == 0 then r
    else if |parts| == 1 then Cons(Word(parts[0]), r)
    else Cons(Word(parts[0]), Cons(Token(COLONCOLON, "::"), PutName(parts[1..], r)))
  }

  function OpTok(op: Op): Token {
    match op
    case Add => Token(PLUS, "+")
    case Sub => Token(MINUS, "-")
    case Mul => Token(STAR, "*")
    case Div => Token(SLASH, "/")
    case Mod => Token(PERCENT, "%")
  }

  const MINUS_SIGN := Token(MINUS, "-")
  const OPEN := Token(LPAREN, "(")
  const CLOSE := Token(RPAREN, ")")
  const COMMA_SIGN := Token(COMMA, ",")
  const DOT_SIGN := Token(DOT, ".")

  /** The tokens of e's text, before those of r. */
  function Put(e: Sym, r: Lexes): Lexes
    decreases e, 0
  {
    match e
    case Flag(b) => Cons(if b then Token(TRUE, "true") else Token(FALSE, "false"), r)
    case Str(s) => Cons(Token(STRING, s), r)
    case Num(n) => if n < 0 then Cons(MINUS_SIGN, Cons(IntToken(-n), r)) else Cons(IntToken(n), r)
    case Name(_, parts) => PutName(parts, r)
    case Member(of, field) => PutWrapped(of, 3, Cons(DOT_SIGN, Cons(Word(field), r)))
    case Apply(func, args) => PutName(func, Cons(OPEN, PutAll(args, Cons(CLOSE, r))))
    case Neg(arg) => Cons(MINUS_SIGN, PutWrapped(arg, 3, r))
    case Bin(op, left, right) => PutWrapped(left, Prec(op), Cons(OpTok(op), PutWrapped(right, Prec(op) + 1, r)))
  }

  function PutAll(args: seq<Sym>, r: Lexes): Lexes
    decreases args, 0
  {
    if |args| == 0 then r
    else if |args| == 1 then Put(args[0], r)
    else Put(args[0], Cons(COMMA_SIGN, PutAll(args[1..], r)))
  }

  function PutWrapped(e: Sym, prec: nat, r: Lexes): Lexes
    decreases e, 1
  {
    if Wrapped(e, prec) then Cons(OPEN, Put(e, Cons(CLOSE, r))) else Put(e, r)
  }

  // ----- single tokens -----

  /** What may follow a word: anything that does not lengthen it. */
  predicate WordEnds(t: string) {
    |t| == 0 || !IsWordChar(t[0])
  }

  predicate NumberEnds(t: string) {
    |t| == 0 || (!IsNumberChar(t[0]) && t[0] != '.')
  }

  lemma SkipStops(s: string)
    requires |s| > 0 && !IsSpace(s[0]) && s[0] != '/'
    ensures Skip(s) == Success(s)
  {}

  lemma {:induction false} WordLengthOf(w: string, t: string)
    requires (forall c :: c in w ==> IsWordChar(c)) && WordEnds(t)
    ensures WordLength(w + t) == |w|
  {
    if |w| > 0 {
      assert (w + t)[1..] == w[1..] + t;
      assert w[0] in w;
      WordLengthOf(w[1..], t);
    } else {
      assert w + t == t;
    }
  }

  lemma {:induction false} NumberLengthOf(w: string, t: string)
    requires (forall c :: c in w ==> IsNumberChar(c)) && (|t| == 0 || !IsNumberChar(t[0]))
    ensures NumberLength(w + t) == |w|
  {
    if |w| > 0 {
      assert (w + t)[1..] == w[1..] + t;
      assert w[0] in w;
      NumberLengthOf(w[1..], t);
    } else {
      assert w + t == t;
    }
  }

  /** Lexing on, once the first token is known. */
  lemma LexStep(s: string, token: Token, t: string)
    requires |s| > 0 && !IsSpace(s[0]) && s[0] != '/' && |t| <= |s|
    requires FirstToken(s) == Success(Lexed(token, |s| - |t|)) && s[|s| - |t|..] == t
    ensures Lex(s) == Cons(token, Lex(t))
  {
    SkipStops(s);
  }

  lemma LexIdent(w: string, t: string)
    requires IsIdent(w) && WordEnds(t)
    ensures Lex(w + t) == Cons(Word(w), Lex(t))
  {
    WordLengthOf(w, t);
    var s := w + t;
    assert s[..|w|] == w && s[|w|..] == t;
    LexStep(s, Word(w), t);
  }

  lemma LexKeyword(w: string, t: string)
    requires w == "true" || w == "false"
    requires WordEnds(t)
    ensures Lex(w + t) == Cons(Token(KEYWORDS[w], w), Lex(t))
  {
    WordLengthOf(w, t);
    var s := w + t;
    assert s[..|w|] == w && s[|w|..] == t;
    LexStep(s, Token(KEYWORDS[w], w), t);
  }

  lemma {:induction false} DigitsOfDigits(s: string)
    requires forall c :: c in s ==> IsDigit(c)
    ensures Digits(s) == s
  {
    if |s| > 0 {
      assert s[0] in s;
      DigitsOfDigits(s[1..]);
    }
  }

  lemma {:induction false} DecimalValue(n: nat)
    ensures DigitsValue(Decimal(n)) == n
  {
    var s := Decimal(n);
    if n < 10 {
      assert s[..0] == "";
    } else {
      DecimalValue(n / 10);
      assert s[..|s| - 1] == Decimal(n / 10);
    }
  }

  lemma LexNumber(n: nat, t: string)
    requires NumberEnds(t)
    ensures Lex(Decimal(n) + t) == Cons(IntToken(n), Lex(t))
  {
    var w := Decimal(n);
    var s := w + t;
    assert w[0] in w;
    NumberLengthOf(w, t);
    DigitsOfDigits(w);
    DecimalValue(n);
    assert s[..|w|] == w && s[|w|..] == t;
    assert At(s, |w|) == At(t, 0);
    assert NumberToken(s) == Lexed(IntToken(n), |w|);
    LexStep(s, IntToken(n), t);
  }

  // ----- strings -----

  function Quoted(s: string): string {
    Replace(Replace(s, '\\', "\\\\"), '"', "\\\"")
  }

  lemma {:induction false} ReplaceAppend(a: string, b: string, c: char, sub: string)
    ensures Replace(a + b, c, sub) == Replace(a, c, sub) + Replace(b, c, sub)
  {
    if |a| == 0 {
      assert a + b == b;
    } else {
      assert (a + b)[1..] == a[1..] + b;
      ReplaceAppend(a[1..], b, c, sub);
    }
  }

  /** One character, escaped. */
  function QuotedChar(c: char): string {
    if c == '\\' then "\\\\" else if c == '"' then "\\\"" else [c]
  }

  lemma QuotedCons(s: string)
    requires |s| > 0
    ensures Quoted(s) == QuotedChar(s[0]) + Quoted(s[1..])
  {
    var first := if s[0] == '\\' then "\\\\" else [s[0]];
    var rest := Replace(s[1..], '\\', "\\\\");
    ReplaceAppend(first, rest, '"', "\\\"");
    if s[0] == '\\' {
      assert first[1..] == "\\" && first[1..][1..] == "";
      assert Replace(first, '"', "\\\"") == first;
    } else {
      assert first[1..] == "";
      assert Replace(first, '"', "\\\"") == QuotedChar(s[0]);
    }
  }

  /** Reading back an escaped string, up to its closing quote; a newline stops it. */
  lemma {:induction false} StringBodyOf(s: string, t: string)
    ensures StringBody(Quoted(s) + "\"" + t) ==
      if '\n' in s then Failure(UnterminatedString) else Success(Literal(s, |Quoted(s)| + 1))
  {
    var whole := Quoted(s) + "\"" + t;
    if |s| > 0 {
      QuotedCons(s);
      StringBodyOf(s[1..], t);
      var c, rest := QuotedChar(s[0]), Quoted(s[1..]) + "\"" + t;
      assert whole == c + rest;
      assert whole[|c|..] == rest;
      assert '\n' in s <==> s[0] == '\n' || '\n' in s[1..];
      assert [s[0]] + s[1..] == s;
    }
  }

  lemma LexString(s: string, t: string)
    ensures Lex("\"" + Quoted(s) + "\"" + t) ==
      if '\n' in s then Failure(UnterminatedString) else Cons(Token(STRING, s), Lex(t))
  {
    var whole := "\"" + Quoted(s) + "\"" + t;
    StringBodyOf(s, t);
    assert whole[1..] == Quoted(s) + "\"" + t;
    SkipStops(whole);
    if '\n' !in s {
      assert whole[|whole| - |t|..] == t;
      LexStep(whole, Token(STRING, s), t);
    }
  }

  // ----- punctuation -----

  lemma LexSpace(t: string)
    ensures Lex(" " + t) == Lex(t)
  {
    assert (" " + t)[1..] == t;
  }

  lemma LexMinus(t: string)
    requires |t| == 0 || t[0] != '>'
    ensures Lex("-" + t) == Cons(MINUS_SIGN, Lex(t))
  {
    hide Lex, Skip, StringBody, NumberToken, WordToken;
    var s := "-" + t;
    assert s[1..] == t && At(s, 1) == At(t, 0);
    LexStep(s, MINUS_SIGN, t);
  }

  lemma LexOpen(t: string)
    ensures Lex("(" + t) == Cons(OPEN, Lex(t))
  {
    hide Lex, Skip, StringBody, NumberToken, WordToken;
    assert ("(" + t)[1..] == t;
    LexStep("(" + t, OPEN, t);
  }

  lemma LexClose(t: string)
    ensures Lex(")" + t) == Cons(CLOSE, Lex(t))
  {
    hide Lex, Skip, StringBody, NumberToken, WordToken;
    assert (")" + t)[1..] == t;
    LexStep(")" + t, CLOSE, t);
  }

  lemma LexComma(t: string)
    ensures Lex(", " + t) == Cons(COMMA_SIGN, Lex(t))
  {
    hide Lex, Skip, StringBody, NumberToken, WordToken;
    var s := ", " + t;
    assert s[1..] == " " + t;
    LexStep(s, COMMA_SIGN, " " + t);
    LexSpace(t);
  }

  lemma LexDot(t: string)
    requires |t| > 0 && t[0] != '.'
    ensures Lex("." + t) == Cons(DOT_SIGN, Lex(t))
  {
    hide Lex, Skip, StringBody, NumberToken, WordToken;
    var s := "." + t;
    assert s[1..] == t && At(s, 1) == t[0];
    LexStep(s, DOT_SIGN, t);
  }

  lemma LexColons(t: string)
    ensures Lex("::" + t) == Cons(Token(COLONCOLON, "::"), Lex(t))
  {
    hide Lex, Skip, StringBody, NumberToken, WordToken;
    var s := "::" + t;
    assert s[2..] == t && At(s, 1) == ':';
    LexStep(s, Token(COLONCOLON, "::"), t);
  }

  lemma OpAlone(op: Op, t: string)
    ensures var s := Spelling(op) + " " + t;
      s[1..] == " " + t && FirstToken(s) == Success(Lexed(OpTok(op), 1)) && Skip(s) == Success(s)
  {
    hide Lex, StringBody, NumberToken, WordToken;
    var s := Spelling(op) + " " + t;
    assert s[1..] == " " + t && At(s, 1) == ' ';
    SlashStops(s);
  }

  lemma LexOp(op: Op, t: string)
    ensures Lex(" " + Spelling(op) + " " + t) == Cons(OpTok(op), Lex(t))
  {
    var s := Spelling(op) + " " + t;
    assert " " + Spelling(op) + " " + t == " " + s;
    OpAlone(op, t);
    hide Skip, FirstToken, OpTok;
    LexSpace(s);
    LexSpace(t);
  }

  lemma SlashStops(s: string)
    requires |s| > 1 && s[1] == ' ' && !IsSpace(s[0])
    ensures Skip(s) == Success(s)
  {}

  lemma {:induction false} LexName(parts: seq<string>, t: string)
    requires IsQualified(parts) && WordEnds(t)
    ensures Lex(Join(parts) + t) == PutName(parts, Lex(t))
    decreases |parts|
  {
    hide Lex, IsIdent;
    assert parts[0] in parts;
    if |parts| == 1 {
      LexIdent(parts[0], t);
    } else {
      var rest := Join(parts[1..]) + t;
      LexName(parts[1..], t);
      LexColons(rest);
      assert Join(parts) + t == parts[0] + ("::" + rest);
      LexIdent(parts[0], "::" + rest);
    }
  }
}
