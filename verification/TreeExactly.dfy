/** Which trees the parser makes at all: exactly those that can be written, and each of them
    from the tokens that are written for it. */
module TreeExactly {
  import opened Lexing
  import opened Syntax
  import opened Grammar
  import opened TreeTokens
  import opened TreeSteps
  import opened TreeOrigins
  import opened TreeLines
  import opened TreeReading
  import opened TreeRoundTrip
  import TokenText

  // ----- what is written is spelled -----

  lemma TextSpelled(op: string)
    requires OpType(op) != EOF
    ensures SpelledToken(Token(OpType(op), op))
  {
    hide IsPrimitive;
  }

  lemma BangSpelled()
    ensures SpelledToken(Token(BANG, "!"))
  {
    hide IsPrimitive, OpType;
  }

  lemma MinusSpelled()
    ensures SpelledToken(Token(MINUS, "-"))
  {
    hide IsPrimitive;
  }

  lemma PrimitiveSpelled(name: string)
    requires IsPrimitive(name)
    ensures SpelledToken(PrimitiveToken(name))
  {
    assert forall tt :: tt in PRIMITIVES ==> Rank(tt) == 0;
  }

  /** Neither an operator whose text the parser keeps nor a type's name. */
  predicate IsMark(tt: TT) {
    tt < BOOL || PATH_T < tt < PLUS || PIPE_OP <= tt <= AND || EQ <= tt
  }

  lemma MarkSpelled(tt: TT, text: string)
    requires IsMark(tt)
    ensures SpelledToken(Token(tt, text))
  {
    hide IsPrimitive, UnaryType, OpType;
  }

  lemma MarksSpelled()
    ensures forall tt, text :: IsMark(tt) ==> SpelledToken(Token(tt, text))
  {
    forall tt, text | IsMark(tt)
      ensures SpelledToken(Token(tt, text))
    {
      MarkSpelled(tt, text);
    }
  }

  lemma AngleText()
    ensures OpType("<") == LT && OpType(">") == GT
  {}

  lemma {:induction false} EachSpelled(ts: Tokens)
    ensures Each(SpelledToken, ts) <==> Spelled(ts)
    decreases ts
  {
    hide SpelledToken;
    if ts.Cons? { EachSpelled(ts.tail); }
  }

  lemma SignsSpelled()
    ensures OfSigns(SpelledToken)
  {
    hide SpelledToken, OpType;
    MarksSpelled();
    AngleText();
    TextSpelled("<");
    TextSpelled(">");
  }

  lemma OperatorsSpelled()
    ensures OfOperators(SpelledToken)
  {
    forall op | OpType(op) != EOF ensures SpelledToken(Token(OpType(op), op)) { TextSpelled(op); }
    forall op | UnaryType(op) != EOF ensures SpelledToken(Token(UnaryType(op), op)) {
      hide SpelledToken;
      MinusSpelled();
      BangSpelled();
    }
    forall name | IsPrimitive(name) ensures SpelledToken(PrimitiveToken(name)) { PrimitiveSpelled(name); }
    hide SpelledToken, OpType, UnaryType, IsPrimitive, PrimitiveToken;
  }

  /** What a tree's own tokens are. */
  ghost predicate OfAny(P: Property) {
    && (forall n: nat :: P(IntToken(n)))
    && forall tt, text :: tt in {IDENT, FLOAT, STRING} ==> P(Token(tt, text))
  }

  lemma {:induction false} OwnAnyName(P: Property, name: string)
    requires OfAny(P)
    ensures OwnName(P, name)
    decreases |name|
  {
    var k := Colons(name);
    if k < |name| { OwnAnyName(P, name[k + 2..]); }
  }

  lemma {:induction false} OwnAny(P: Property, e: Expr)
    requires OfAny(P)
    ensures Own(P, e)
    decreases e, 0
  {
    hide OwnName;
    match e
    case Ident(name) => OwnAnyName(P, name);
    case Unary(_, o) => OwnAny(P, o);
    case Binary(_, l, r) => OwnAny(P, l); OwnAny(P, r);
    case Pipe(l, r) => OwnAny(P, l); OwnAny(P, r);
    case Range(a, b, _) => OwnAny(P, a); OwnAny(P, b);
    case Cast(x, t) => OwnAny(P, x); OwnAnyType(P, t);
    case Field(o, _) => OwnAny(P, o);
    case Method(o, _, args) =>
      OwnAny(P, o);
      forall a | a in args ensures OwnArg(P, a) { OwnAny(P, a.value); }
    case Call(f, args, types) =>
      OwnAny(P, f);
      forall a | a in args ensures OwnArg(P, a) { OwnAny(P, a.value); }
      forall t | t in types ensures OwnType(P, t) { OwnAnyType(P, t); }
    case Index(o, i) => OwnAny(P, o); OwnAny(P, i);
    case Slice(o, a, b) => OwnAny(P, o); OwnAny(P, a); OwnAny(P, b);
    case Array(es) => forall x | x in es ensures Own(P, x) { OwnAny(P, x); }
    case Struct(name, fs) =>
      OwnAnyName(P, name);
      forall f | f in fs ensures OwnInit(P, f) { if f.Init? { OwnAny(P, f.value); } }
    case Closure(ps, body) =>
      OwnAny(P, body);
      forall p | p in ps ensures OwnParam(P, p) { if p.ann.Some? { OwnAnyType(P, p.ann.value); } }
    case _ =>
  }

  lemma {:induction false} OwnAnyType(P: Property, t: Type)
    requires OfAny(P)
    ensures OwnType(P, t)
    decreases t, 0
  {
    hide OwnName;
    match t
    case Primitive(_) =>
    case Enc(inner) => OwnAnyType(P, inner);
    case Vec(elem, size) =>
      OwnAnyType(P, elem);
      if size.Some? { OwnAny(P, size.value); }
    case Mat(elem) => OwnAnyType(P, elem);
    case SizedMat(elem, rows, cols) => OwnAnyType(P, elem); OwnAny(P, rows); OwnAny(P, cols);
    case Fn(params, ret) =>
      OwnAnyType(P, ret);
      forall p | p in params ensures OwnType(P, p) { OwnAnyType(P, p); }
    case Tuple(elements) => forall x | x in elements ensures OwnType(P, x) { OwnAnyType(P, x); }
    case Named(name, _) => OwnAnyName(P, name);
  }

  lemma AnySpelled()
    ensures OfAny(SpelledToken)
  {
    MarksSpelled();
  }

  /** A written tree's tokens are spelled as their types say. */
  lemma ExprSpelled(g: Grammar, e: Expr)
    requires Writable(g, e)
    ensures Spelled(ExprLine(e, End))
  {
    SignsSpelled();
    OperatorsSpelled();
    AnySpelled();
    OwnAny(SpelledToken, e);
    ExprEach(g, SpelledToken, e, End);
    EachSpelled(ExprLine(e, End));
    hide OfSigns, OfOperators, OfAny, Own, Writable, ExprLine;
  }

  lemma TypeSpelled(g: Grammar, t: Type)
    requires WritableType(g, t)
    ensures Spelled(TypeLine(t, End))
  {
    SignsSpelled();
    OperatorsSpelled();
    AnySpelled();
    OwnAnyType(SpelledToken, t);
    TypeEach(g, SpelledToken, t, End);
    EachSpelled(TypeLine(t, End));
    hide OfSigns, OfOperators, OfAny, OwnType, WritableType, TypeLine;
  }

  // ----- exactly the trees that can be written -----

  /** An expression is what the parser makes of some tokens exactly when it can be written,
      and then it makes it of those that are written for it. */
  lemma ExprExactly(g: Grammar, e: Expr)
    ensures (exists ts :: Spelled(ts) && g.ParseExpr(ts).val == Some(e)) <==> Writable(g, e)
    ensures Writable(g, e) ==> Yields(g.ParseExpr(ExprLine(e, End)), End, e)
  {
    hide Grammar.ParseExpr, Writable, ExprLine, Spelled;
    forall ts | Spelled(ts) && g.ParseExpr(ts).val == Some(e)
      ensures Writable(g, e)
    {
      OfExpr(g, ts);
    }
    if Writable(g, e) {
      NothingLeft(g, e);
      ExprRead(g, e, End);
      ExprSpelled(g, e);
    }
  }

  lemma NothingLeft(g: Grammar, e: Expr)
    ensures Spelled(End) && Ends(g, e, End) && AfterType(End)
  {}

  lemma TypeExactly(g: Grammar, t: Type)
    ensures (exists ts :: Spelled(ts) && g.ParseType(ts).val == Some(t)) <==> WritableType(g, t)
    ensures WritableType(g, t) ==> Yields(g.ParseType(TypeLine(t, End)), End, t)
  {
    hide Grammar.ParseType, WritableType, TypeLine, Spelled;
    forall ts | Spelled(ts) && g.ParseType(ts).val == Some(t)
      ensures WritableType(g, t)
    {
      OfType(g, ts);
    }
    if WritableType(g, t) {
      NothingLeft(g, IntLiteral(0));
      TypeRead(g, t, End);
      TypeSpelled(g, t);
    }
  }

  /** A vector type with a number for its size is read from no tokens: the size is read as
      an expression, which takes the closing `>` for an operator. */
  lemma SizeTakesTheBracket(g: Grammar, elem: Type, n: nat, ts: Tokens)
    requires Spelled(ts)
    ensures g.ParseType(ts).val != Some(Vec(elem, Some(IntLiteral(n))))
  {
    hide Grammar.ParseType, Spelled;
    OfType(g, ts);
  }

  // ----- what the lexer makes is spelled -----

  lemma OperatorTokenSpelled(s: string)
    requires |s| > 0 && OpToken(s).Success?
    ensures SpelledToken(OpToken(s).value.token)
  {
    var t := OpToken(s).value.token;
    if IsMark(t.tt) {
      MarkSpelled(t.tt, t.text);
    } else {
      hide SpelledToken;
      KeptOperator(s);
      if t in SIGNS { SignText(t); } else { CompareText(t); }
    }
  }

  /** The operators that are no marks. */
  const SIGNS: seq<Token> := [
    Token(PLUS, "+"), Token(MINUS, "-"), Token(STAR, "*"), Token(SLASH, "/"), Token(PERCENT, "%"),
    Token(STAR_NORELIN, "*_norelin"), Token(CARET, "^"), Token(BANG, "!")]
  const COMPARISONS: seq<Token> := [
    Token(EQ_EQ, "=="), Token(BANG_EQ, "!="), Token(LT, "<"), Token(GT, ">"), Token(LT_EQ, "<="),
    Token(GT_EQ, ">="), Token(SHL, "<<"), Token(SHR, ">>"), Token(TILDE_EQ, "~=")]

  lemma KeptOperator(s: string)
    requires |s| > 0 && OpToken(s).Success? && !IsMark(OpToken(s).value.token.tt)
    ensures OpToken(s).value.token in SIGNS + COMPARISONS
  {}

  lemma SignText(t: Token)
    requires t in SIGNS
    ensures SpelledToken(t)
  {
    hide SpelledToken;
    if t.tt == BANG { BangSpelled(); } else { TextSpelled(t.text); }
  }

  lemma CompareText(t: Token)
    requires t in COMPARISONS
    ensures SpelledToken(t)
  {
    hide SpelledToken;
    TextSpelled(t.text);
  }

  lemma WordSpelled(s: string)
    requires |s| > 0 && IsWordStart(s[0])
    ensures SpelledToken(WordToken(s).token)
  {
    hide WordLength, SpelledToken;
    var t := WordToken(s).token;
    KeywordTypes();
    hide KEYWORDS;
    if IsMark(t.tt) { MarkSpelled(t.tt, t.text); } else { TypeNameSpelled(t); }
  }

  lemma TypeNameSpelled(t: Token)
    requires t.Token? && t.tt in PRIMITIVES && t.text in KEYWORDS && KEYWORDS[t.text] == t.tt
    ensures SpelledToken(t)
  {
    hide UnaryType, OpType, KEYWORDS;
  }

  lemma KeywordTypes()
    ensures forall word :: word in KEYWORDS && !IsMark(KEYWORDS[word]) ==> KEYWORDS[word] in PRIMITIVES
  {}

  lemma FirstSpelled(s: string)
    requires |s| > 0 && FirstToken(s).Success?
    ensures SpelledToken(FirstToken(s).value.token)
  {
    hide StringBody, WordLength, OpToken, NumberLength, Digits, DigitsValue, WordToken, IsPrimitive;
    if IsWordStart(s[0]) { WordSpelled(s); }
    if OpToken(s).Success? { OperatorTokenSpelled(s); }
  }

  /** Every token of a source is spelled as its type says. */
  lemma {:induction false} LexIsSpelled(s: string)
    requires Lex(s).Success?
    ensures Spelled(ListOf(Lex(s).value))
    decreases |s|
  {
    hide FirstToken, Skip, SpelledToken;
    var rest := Skip(s);
    if |rest.value| > 0 {
      var t := FirstToken(rest.value);
      LexIsSpelled(rest.value[t.value.length..]);
      FirstSpelled(rest.value);
    }
  }

  /** Whatever expression a source is read as, its own tokens read as it again. */
  lemma SourceReadsBack(g: Grammar, s: string)
    requires Lex(s).Success? && g.ParseExpr(ListOf(Lex(s).value)).val.Some?
    ensures var e := g.ParseExpr(ListOf(Lex(s).value)).val.value; Yields(g.ParseExpr(ExprLine(e, End)), End, e)
  {
    hide Grammar.ParseExpr, Spelled, ExprLine, Lex, Writable;
    LexIsSpelled(s);
    ExprExactly(g, g.ParseExpr(ListOf(Lex(s).value)).val.value);
  }

  // ----- sources for trees -----

  lemma {:induction false} EachSayable(ts: Tokens)
    ensures Each(TokenText.Sayable, ts) <==> TokenText.AllSayable(ts)
    decreases ts
  {
    hide TokenText.Sayable;
    if ts.Cons? { EachSayable(ts.tail); }
  }

  lemma SignsSayable()
    ensures OfSigns(TokenText.Sayable)
  {
    TokenText.TypeWords();
    TokenText.ExprWords();
    TokenText.Brackets();
    TokenText.Marks();
    TokenText.Comparisons();
    forall tt, text | TokenText.IsKeyword(tt, text) ensures TokenText.Sayable(Token(tt, text)) {
      TokenText.KeywordSayable(tt, text);
    }
    forall tt, text | TokenText.IsSign(tt, text) ensures TokenText.Sayable(Token(tt, text)) {
      TokenText.SignSayable(tt, text);
    }
    hide TokenText.Sayable, TokenText.IsKeyword, TokenText.IsSign;
  }

  lemma OperatorsSayable()
    ensures OfOperators(TokenText.Sayable)
  {
    hide TokenText.Sayable;
    forall op | OpType(op) != EOF ensures TokenText.Sayable(Token(OpType(op), op)) {
      OperatorIsSign(op);
      TokenText.SignSayable(OpType(op), op);
    }
    forall op | UnaryType(op) != EOF ensures TokenText.Sayable(Token(UnaryType(op), op)) {
      TokenText.Arithmetic();
      TokenText.SignSayable(UnaryType(op), op);
    }
    forall name | IsPrimitive(name) ensures TokenText.Sayable(PrimitiveToken(name)) {
      TokenText.NumberWords(name);
      TokenText.KeywordSayable(KEYWORDS[name], name);
    }
    hide OpType, UnaryType, IsPrimitive, PrimitiveToken;
  }

  lemma OperatorIsSign(op: string)
    requires OpType(op) != EOF
    ensures TokenText.IsSign(OpType(op), op)
  {
    TokenText.Arithmetic();
    TokenText.Comparisons();
    TokenText.Marks();
    hide TokenText.IsSign;
  }

  /** A source for every tree whose names are words and no keywords, and whose floats are
      digits around a point: its tokens, written out, lex to themselves and parse to it. */
  lemma TextReadsBack(g: Grammar, e: Expr)
    requires Writable(g, e) && Own(TokenText.Sayable, e)
    ensures var lexed := Lex(TokenText.Line(ExprLine(e, End)));
      lexed.Success? && Yields(g.ParseExpr(ListOf(lexed.value)), End, e)
  {
    SignsSayable();
    OperatorsSayable();
    ExprEach(g, TokenText.Sayable, e, End);
    EachSayable(ExprLine(e, End));
    ExprExactly(g, e);
    hide OfSigns, OfOperators, Own, Writable, ExprLine, TokenText.Sayable, Grammar.ParseExpr, Lex;
    TokenText.LineLexes(ExprLine(e, End));
  }

  lemma TypeTextReadsBack(g: Grammar, t: Type)
    requires WritableType(g, t) && OwnType(TokenText.Sayable, t)
    ensures var lexed := Lex(TokenText.Line(TypeLine(t, End)));
      lexed.Success? && Yields(g.ParseType(ListOf(lexed.value)), End, t)
  {
    SignsSayable();
    OperatorsSayable();
    TypeEach(g, TokenText.Sayable, t, End);
    EachSayable(TypeLine(t, End));
    TypeExactly(g, t);
    hide OfSigns, OfOperators, OwnType, WritableType, TypeLine, TokenText.Sayable, Grammar.ParseType, Lex;
    TokenText.LineLexes(TypeLine(t, End));
  }
}
