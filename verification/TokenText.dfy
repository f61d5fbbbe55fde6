/** The text of every token the lexer can make, and the lexer's way back. A token list that
    is written out with a space after each token lexes to itself; and each token of a source
    is one that can be written. Comments, which nest, and white space lex to nothing. */
module TokenText {
  import opened Lexing
  import opened Grammar
  import opened Symbolic
  import opened PrintedTokens

  // ----- what a token is written as -----

  predicate IsWord(w: string) {
    |w| > 0 && IsWordStart(w[0]) && forall c :: c in w ==> IsWordChar(c)
  }

  predicate AllDigits(s: string) {
    forall c :: c in s ==> IsDigit(c)
  }

  /** Digits, a point at k, and digits or none. */
  predicate PointAt(s: string, k: nat) {
    0 < k < |s| && s[k] == '.' && AllDigits(s[..k]) && AllDigits(s[k + 1..])
  }

  ghost predicate IsFloat(s: string) {
    exists k: nat :: PointAt(s, k)
  }

  /** A token that some text is. */
  ghost predicate Sayable(t: Token) {
    t.IntToken? ||
    (if t.tt == STRING then true
     else if t.tt == ANNOTATION then IsWord(t.text)
     else if t.tt == FLOAT then IsFloat(t.text)
     else IsWordToken(t) || (|t.text| > 0 && t in Operators(t.text[0])))
  }

  /** A word, and a keyword exactly when it is in the table of keywords. */
  predicate IsWordToken(t: Token) {
    t.Token? && IsWord(t.text) && t.tt == (if t.text in KEYWORDS then KEYWORDS[t.text] else IDENT)
  }

  ghost predicate AllSayable(ts: Tokens) {
    ts.Cons? ==> Sayable(ts.head) && AllSayable(ts.tail)
  }

  function EscapedChar(c: char): string {
    if c == '\\' then "\\\\" else if c == '"' then "\\\"" else if c == '\n' then "\\n" else if c == '\t' then "\\t"
    else [c]
  }

  function EscapedText(s: string): string {
    if |s| == 0 then "" else EscapedChar(s[0]) + EscapedText(s[1..])
  }

  function Said(t: Token): string {
    if t.IntToken? then Decimal(t.n)
    else if t.tt == STRING then "\"" + EscapedText(t.text) + "\""
    else if t.tt == ANNOTATION then "@" + t.text
    else t.text
  }

  function Line(ts: Tokens): string {
    if ts.End? then "" else Said(ts.head) + (" " + Line(ts.tail))
  }

  // ----- one token -----

  /** t is what is read first of a text that goes on with a space. */
  ghost predicate ReadsAs(t: Token, rest: string) {
    var s := Said(t) + (" " + rest);
    |s| > 0 && !IsSpace(s[0]) && FirstToken(s) == Success(Lexed(t, |Said(t)|))
  }

  lemma WordReads(t: Token, rest: string)
    requires t.Token? && t.tt !in {STRING, ANNOTATION} && IsWordToken(t)
    ensures ReadsAs(t, rest)
  {
    var w, u := t.text, " " + rest;
    WordLengthOf(w, u);
    assert (w + u)[..|w|] == w;
    assert (w + u)[0] == w[0];
  }

  lemma NumberReads(n: nat, rest: string)
    ensures ReadsAs(IntToken(n), rest)
  {
    var w, u := Decimal(n), " " + rest;
    var s := w + u;
    assert w[0] in w && s[0] == w[0];
    NumberLengthOf(w, u);
    DigitsOfDigits(w);
    DecimalValue(n);
    assert s[..|w|] == w && At(s, |w|) == ' ';
  }

  lemma FloatReads(t: Token, rest: string)
    requires t.Token? && t.tt == FLOAT && IsFloat(t.text)
    ensures ReadsAs(t, rest)
  {
    hide NumberToken, PointAt, FirstToken, AllDigits, OpToken;
    FloatParts(t.text);
    var a, b: string :| |a| > 0 && AllDigits(a) && AllDigits(b) && t.text == a + "." + b;
    var u := " " + rest;
    FloatNumber(a, b, u);
    assert t.text + u == a + ("." + (b + u));
    assert (t.text + u)[0] == a[0];
    FirstNumber(t.text + u);
  }

  lemma FirstNumber(s: string)
    requires |s| > 0 && IsDigit(s[0])
    ensures FirstToken(s) == Success(NumberToken(s)) && !IsSpace(s[0])
  {
    hide NumberToken, OpToken, StringBody;
  }

  lemma FirstAnnotation(s: string)
    requires |s| > 1 && s[0] == '@' && IsWordStart(s[1])
    ensures var k := WordLength(s[1..]); FirstToken(s) == Success(Lexed(Token(ANNOTATION, s[1..1 + k]), 1 + k))
  {
    hide NumberToken, OpToken, StringBody, WordLength;
  }

  lemma FloatParts(s: string)
    requires IsFloat(s)
    ensures exists a, b: string :: |a| > 0 && AllDigits(a) && AllDigits(b) && s == a + "." + b
  {
    var k: nat :| PointAt(s, k);
    assert s == s[..k] + "." + s[k + 1..];
  }

  lemma FloatForm(s: string, k: nat, m: nat)
    requires |s| > 0 && IsDigit(s[0]) && k + 1 < |s| && s[k] == '.' && s[k + 1] != '.'
    requires NumberLength(s) == k && NumberLength(s[k + 1..]) == m
    ensures NumberToken(s) == Lexed(Token(FLOAT, Digits(s[..k]) + "." + Digits(s[k + 1..k + 1 + m])), k + 1 + m)
  {
    hide NumberLength, Digits;
  }

  lemma FloatNumber(a: string, b: string, u: string)
    requires |a| > 0 && AllDigits(a) && AllDigits(b) && |u| > 0 && u[0] == ' '
    ensures a[0] in a && IsDigit(a[0])
    ensures NumberToken(a + ("." + (b + u))) == Lexed(Token(FLOAT, a + "." + b), |a| + 1 + |b|)
  {
    hide NumberToken, NumberLength, Digits;
    var v := b + u;
    var s := a + ("." + v);
    NumberLengthOf(a, "." + v);
    NumberLengthOf(b, u);
    DigitsOfDigits(a);
    DigitsOfDigits(b);
    assert a[0] in a && (|b| > 0 ==> b[0] in b);
    hide AllDigits;
    assert v[0] == if |b| > 0 then b[0] else ' ';
    assert s[..|a|] == a && s[|a| + 1..] == v && s[|a| + 1..|a| + 1 + |b|] == b;
    assert s[|a| + 1] == v[0];
    FloatForm(s, |a|, |b|);
  }

  lemma PlainStep(c: char, more: string)
    requires c != '"' && c != '\\' && c != '\n' && StringBody(more).Success?
    ensures var r := StringBody(more).value;
      StringBody([c] + more) == Success(Literal([c] + r.value, 1 + r.length))
  {
    assert ([c] + more)[1..] == more;
  }

  lemma BackslashStep(c: char, more: string)
    requires StringBody(more).Success?
    ensures var r := StringBody(more).value;
      StringBody(['\\', c] + more) == Success(Literal([Escape(c)] + r.value, 2 + r.length))
  {
    hide Escape;
    var s := ['\\', c] + more;
    assert s[2..] == more && s[0] == '\\' && s[1] == c;
  }

  lemma EscapeStep(c: char, more: string)
    requires StringBody(more).Success?
    ensures var r := StringBody(more).value;
      StringBody(EscapedChar(c) + more) == Success(Literal([c] + r.value, |EscapedChar(c)| + r.length))
  {
    hide StringBody;
    if EscapedChar(c) == [c] { PlainStep(c, more); } else { BackslashStep(EscapedChar(c)[1], more); }
  }

  /** Reading back an escaped string, up to its closing quote. */
  lemma {:induction false} EscapesUndone(s: string, rest: string)
    ensures StringBody(EscapedText(s) + ("\"" + rest)) == Success(Literal(s, |EscapedText(s)| + 1))
  {
    hide EscapedChar;
    var end := "\"" + rest;
    if |s| > 0 {
      EscapesUndone(s[1..], rest);
      EscapeStep(s[0], EscapedText(s[1..]) + end);
      hide StringBody;
      assert EscapedText(s) + end == EscapedChar(s[0]) + (EscapedText(s[1..]) + end);
      assert [s[0]] + s[1..] == s;
    } else {
      assert EscapedText(s) + end == end;
    }
  }

  lemma StringReads(t: Token, rest: string)
    requires t.Token? && t.tt == STRING
    ensures ReadsAs(t, rest)
  {
    var u := " " + rest;
    EscapesUndone(t.text, u);
    assert (Said(t) + u)[1..] == EscapedText(t.text) + ("\"" + u);
  }

  lemma AnnotationReads(t: Token, rest: string)
    requires t.Token? && t.tt == ANNOTATION && IsWord(t.text)
    ensures ReadsAs(t, rest)
  {
    hide FirstToken, WordLength;
    var w, u := t.text, " " + rest;
    WordLengthOf(w, u);
    assert IsWordStart(w[0]);
    hide IsWord;
    var s := "@" + (w + u);
    assert Said(t) + u == s;
    assert s[1..] == w + u && s[1] == w[0];
    assert s[1..1 + |w|] == w;
    FirstAnnotation(s);
  }

  /** Operators are told apart by their text. */
  lemma OperatorsApart(t: Token, u: Token, c: char)
    requires t in Operators(c) && u in Operators(c) && t.Word() == u.Word()
    ensures t == u
  {}

  lemma OperatorBegins(t: Token, c: char)
    requires t in Operators(c)
    ensures |t.Word()| > 0 && t.Word()[0] == c
  {}

  lemma OperatorHasNoSpace(t: Token, c: char)
    requires t in Operators(c)
    ensures ' ' !in t.Word()
  {}

  lemma WithoutSpace(u: string, t: string, rest: string)
    requires u <= t + (" " + rest)
    ensures |u| > |t| ==> ' ' in u
  {
    if |u| > |t| { assert u[|t|] == (t + (" " + rest))[|t|]; }
  }

  lemma OperatorReads(t: Token, rest: string)
    requires t.Token? && |t.text| > 0 && t in Operators(t.text[0]) && t.tt !in {STRING, ANNOTATION}
    ensures ReadsAs(t, rest)
  {
    var s := t.text + (" " + rest);
    var c := s[0];
    assert c == t.text[0] && t.Word() <= s;
    LongestOperator(s);
    hide OpToken, Operators;
    var u := OpToken(s).value.token;
    OperatorBegins(u, c);
    OperatorHasNoSpace(u, c);
    WithoutSpace(u.Word(), t.text, rest);
    assert u.Word() == s[..|t.text|] == t.text;
    OperatorsApart(u, t, c);
    StartsOperator(c, t);
  }

  /** An operator starts like nothing else. */
  lemma StartsOperator(c: char, t: Token)
    requires t in Operators(c)
    ensures !IsDigit(c) && !IsWordStart(c) && c != '"' && c != '@' && !IsSpace(c)
  {}

  lemma TokenReads(t: Token, rest: string)
    requires Sayable(t)
    ensures ReadsAs(t, rest)
  {
    hide ReadsAs, Operators;
    if t.IntToken? { NumberReads(t.n, rest); }
    else if t.tt == STRING { StringReads(t, rest); }
    else if t.tt == ANNOTATION { AnnotationReads(t, rest); }
    else if t.tt == FLOAT { FloatReads(t, rest); }
    else if IsWordToken(t) { WordReads(t, rest); }
    else { OperatorReads(t, rest); }
  }

  // ----- whole lists -----

  function SeqOf(ts: Tokens): seq<Token> {
    if ts.End? then [] else [ts.head] + SeqOf(ts.tail)
  }

  lemma LineStep(t: Token, rest: string)
    requires ReadsAs(t, rest)
    ensures Lex(Said(t) + (" " + rest)) == Lexing.Cons(t, Lex(rest)) && t.Type() != EOF
  {
    var s := Said(t) + (" " + rest);
    hide Said, FirstToken;
    assert |s| > |Said(t)| by { assert s[|Said(t)|] == ' '; }
    assert s[|Said(t)|..] == " " + rest;
    NotEof(s);
    NoComment(t, rest);
    LexSpace(rest);
  }

  /** A token is not taken for a comment. */
  lemma NoComment(t: Token, rest: string)
    requires ReadsAs(t, rest)
    ensures Skip(Said(t) + (" " + rest)) == Success(Said(t) + (" " + rest))
  {
    var s := Said(t) + (" " + rest);
    if s[0] == '/' {
      SlashReads(s);
      assert |Said(t)| == 1 && s[1] == ' ';
    }
  }

  lemma SlashReads(s: string)
    requires |s| > 0 && s[0] == '/'
    ensures FirstToken(s) == Success(Lexed(Token(SLASH, "/"), 1))
  {}

  /** Any list of tokens, written out, lexes to itself. */
  lemma {:induction false} LineLexes(ts: Tokens)
    requires AllSayable(ts)
    ensures Lex(Line(ts)) == Success(SeqOf(ts) + [END])
    ensures ListOf(SeqOf(ts) + [END]) == ts
    decreases ts
  {
    hide Lex, Sayable, Said;
    if ts.End? {
      NothingLexes();
      assert SeqOf(ts) + [END] == [END];
    } else {
      LineLexes(ts.tail);
      TokenReads(ts.head, Line(ts.tail));
      LineStep(ts.head, Line(ts.tail));
      var more := SeqOf(ts.tail) + [END];
      assert SeqOf(ts) + [END] == [ts.head] + more;
      assert ([ts.head] + more)[1..] == more;
    }
  }

  lemma NothingLexes()
    ensures Lex("") == Success([END])
  {}

  // ----- every token of a source can be written -----

  lemma {:induction false} DigitsAreDigits(s: string)
    requires forall c :: c in s ==> IsNumberChar(c)
    ensures AllDigits(Digits(s))
    ensures |s| > 0 && IsDigit(s[0]) ==> |Digits(s)| > 0
  {
    if |s| > 0 {
      assert s[0] in s;
      DigitsAreDigits(s[1..]);
    }
  }

  lemma NumberSayable(s: string)
    requires |s| > 0 && IsDigit(s[0])
    ensures Sayable(NumberToken(s).token)
  {
    var k := NumberLength(s);
    if At(s, k) == '.' && At(s, k + 1) != '.' {
      var m := NumberLength(s[k + 1..]);
      var a, b := s[..k], s[k + 1..k + 1 + m];
      assert b == s[k + 1..][..m];
      DigitsAreDigits(a);
      DigitsAreDigits(b);
      var x := Digits(a) + "." + Digits(b);
      assert x[..|Digits(a)|] == Digits(a) && x[|Digits(a)| + 1..] == Digits(b);
      assert PointAt(x, |Digits(a)|);
    }
  }

  lemma FirstSayable(s: string)
    requires |s| > 0 && FirstToken(s).Success?
    ensures Sayable(FirstToken(s).value.token)
  {
    hide StringBody, NumberToken, Operators, OpToken, IsFloat;
    if IsDigit(s[0]) {
      NumberSayable(s);
    } else if IsWordStart(s[0]) {
      WordSayable(s);
    } else if s[0] == '@' {
      assert IsWord(s[1..1 + WordLength(s[1..])]);
    } else if s[0] != '"' {
      LongestOperator(s);
      OperatorSayable(FirstToken(s).value.token, s[0]);
    }
  }

  lemma KeywordNumbers()
    ensures forall word :: word in KEYWORDS ==> FN <= KEYWORDS[word] <= AUTO
  {}

  lemma WordSayable(s: string)
    requires |s| > 0 && IsWordStart(s[0])
    ensures Sayable(WordToken(s).token)
  {
    var t := WordToken(s).token;
    assert IsWordToken(t);
    KeywordNumbers();
  }

  lemma OperatorSayable(t: Token, c: char)
    requires t in Operators(c)
    ensures Sayable(t)
  {}

  /** Every token of a source can be written, and written out they lex to the same. */
  lemma {:induction false} SourceSayable(s: string)
    requires Lex(s).Success?
    ensures AllSayable(ListOf(Lex(s).value)) && SeqOf(ListOf(Lex(s).value)) + [END] == Lex(s).value
    decreases |s|
  {
    hide FirstToken, Skip, Sayable;
    var rest := Skip(s);
    if |rest.value| > 0 {
      var t := FirstToken(rest.value);
      SourceSayable(rest.value[t.value.length..]);
      FirstSayable(rest.value);
      NotEof(rest.value);
      var more := Lex(rest.value[t.value.length..]).value;
      assert ([t.value.token] + more)[1..] == more;
    }
  }

  lemma SourceSaidAgain(s: string)
    requires Lex(s).Success?
    ensures Lex(Line(ListOf(Lex(s).value))) == Lex(s)
  {
    SourceSayable(s);
    LineLexes(ListOf(Lex(s).value));
    hide *;
  }

  // ----- the words and signs of the grammar -----

  predicate IsKeyword(tt: TT, text: string) {
    text in KEYWORDS && KEYWORDS[text] == tt && IsWord(text)
  }

  /** The keywords that types and expressions are written with. */
  lemma TypeWords()
    ensures IsKeyword(ENC, "enc") && IsKeyword(VEC, "vec") && IsKeyword(MAT, "mat") && IsKeyword(FN, "fn")
  {}

  lemma ExprWords()
    ensures IsKeyword(AS, "as") && IsKeyword(TRUE, "true") && IsKeyword(FALSE, "false")
    ensures IsKeyword(SCHEME, "scheme") && IsKeyword(WIRE, "wire") && IsKeyword(DOMAIN, "domain")
  {}

  /** The primitive types are called by words. */
  lemma NumberWords(name: string)
    requires name in KEYWORDS && BOOL <= KEYWORDS[name] <= PATH_T
    ensures IsWord(name)
  {
    PrimitiveNames(name);
    hide KEYWORDS;
  }

  lemma PrimitiveNames(name: string)
    requires name in KEYWORDS && BOOL <= KEYWORDS[name] <= PATH_T
    ensures name in ["bool", "u8", "u16", "u32", "u64", "i8", "i16", "i32", "i64", "f32", "f64", "string", "path"]
  {}

  lemma KeywordSayable(tt: TT, text: string)
    requires IsKeyword(tt, text)
    ensures Sayable(Token(tt, text))
  {
    KeywordNumbers();
  }

  predicate IsSign(tt: TT, text: string) {
    |text| > 0 && Token(tt, text) in Operators(text[0])
  }

  /** The brackets and marks of types and expressions, and what they are written as. */
  lemma Brackets()
    ensures IsSign(LPAREN, "(") && IsSign(RPAREN, ")") && IsSign(LBRACKET, "[") && IsSign(RBRACKET, "]")
    ensures IsSign(LBRACE, "{") && IsSign(RBRACE, "}") && IsSign(COMMA, ",")
  {}

  lemma Marks()
    ensures IsSign(DOT, ".") && IsSign(DOTDOT, "..") && IsSign(DOTDOTEQ, "..=")
    ensures IsSign(COLON, ":") && IsSign(COLONCOLON, "::") && IsSign(ARROW, "->")
    ensures IsSign(PIPE, "|") && IsSign(PIPE_OP, "|>") && IsSign(OR, "||") && IsSign(AND, "&&")
  {}

  lemma Arithmetic()
    ensures IsSign(PLUS, "+") && IsSign(MINUS, "-") && IsSign(STAR, "*") && IsSign(SLASH, "/")
    ensures IsSign(PERCENT, "%") && IsSign(CARET, "^") && IsSign(BANG, "!") && IsSign(STAR_NORELIN, "*_norelin")
  {}

  lemma Comparisons()
    ensures IsSign(EQ_EQ, "==") && IsSign(BANG_EQ, "!=") && IsSign(TILDE_EQ, "~=")
    ensures IsSign(LT, "<") && IsSign(GT, ">") && IsSign(LT_EQ, "<=") && IsSign(GT_EQ, ">=")
    ensures IsSign(SHL, "<<") && IsSign(SHR, ">>")
  {}

  lemma SignSayable(tt: TT, text: string)
    requires IsSign(tt, text)
    ensures Sayable(Token(tt, text))
  {
    OperatorSayable(Token(tt, text), text[0]);
  }
}
