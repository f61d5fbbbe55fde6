/** Printing a symbolic expression, lexing the text and parsing the tokens gives the
    expression's own tree back, exactly when no string in it holds a newline and no
    field is taken of a number or of a unary minus. */
module PrintRoundTrip {
  import opened Lexing
  import opened Symbolic
  import opened PrintedTokens
  import opened PrintedText
  import opened PrintedTrees
  import G = Grammar
  import S = Syntax

  /** A whole text read as one expression. */
  function ParseText(g: G.Grammar, s: string): S.Option<S.Expr> {
    var ts := Lex(s);
    if ts.Failure? then S.None
    else
      var r := g.ParseExpr(G.ListOf(ts.value));
      if r.rest.End? then r.val else S.None
  }

  /** The condition under which the text is faithful. */
  predicate Faithful(e: Sym) {
    match e
    case Flag(_) => true
    case Str(s) => '\n' !in s
    case Num(_) => true
    case Name(_, _) => true
    case Member(of, _) => Faithful(of) && !of.Num? && !of.Neg?
    case Apply(_, args) => forall a :: a in args ==> Faithful(a)
    case Neg(arg) => Faithful(arg)
    case Bin(_, left, right) => Faithful(left) && Faithful(right)
  }

  // ----- from the lexer's tokens to the parser's list -----

  function TokensOf(r: Lexes): Tokens {
    if r.Failure? then G.End else G.ListOf(r.value)
  }

  lemma ConsTokens(t: Token, r: Lexes)
    requires r.Success? && t.Type() != EOF
    ensures Cons(t, r).Success? && TokensOf(Cons(t, r)) == G.Cons(t, TokensOf(r))
  {
    assert ([t] + r.value)[1..] == r.value;
  }

  lemma {:induction false} NameTokens(parts: seq<string>, r: Lexes)
    requires r.Success?
    ensures PutName(parts, r).Success? && TokensOf(PutName(parts, r)) == LineName(parts, TokensOf(r))
  {
    hide TokensOf, Cons;
    if |parts| == 1 {
      ConsTokens(Word(parts[0]), r);
    } else if |parts| > 1 {
      var rest := PutName(parts[1..], r);
      NameTokens(parts[1..], r);
      ConsTokens(Token(COLONCOLON, "::"), rest);
      ConsTokens(Word(parts[0]), Cons(Token(COLONCOLON, "::"), rest));
    }
  }

  lemma {:induction false} PutTokens(e: Sym, r: Lexes)
    requires r.Success?
    ensures Put(e, r).Success? && TokensOf(Put(e, r)) == Line(e, TokensOf(r))
    decreases e, 0
  {
    hide TokensOf, Cons;
    match e
    case Flag(b) => ConsTokens(if b then Token(TRUE, "true") else Token(FALSE, "false"), r);
    case Str(s) => ConsTokens(Token(STRING, s), r);
    case Num(n) =>
      ConsTokens(IntToken(if n < 0 then -n else n), r);
      if n < 0 { ConsTokens(MINUS_SIGN, Cons(IntToken(-n), r)); }
    case Name(_, parts) => NameTokens(parts, r);
    case Member(of, field) =>
      ConsTokens(Word(field), r);
      ConsTokens(DOT_SIGN, Cons(Word(field), r));
      WrappedTokens(of, 3, Cons(DOT_SIGN, Cons(Word(field), r)));
    case Apply(func, args) =>
      ConsTokens(CLOSE, r);
      AllTokens(args, Cons(CLOSE, r));
      ConsTokens(OPEN, PutAll(args, Cons(CLOSE, r)));
      NameTokens(func, Cons(OPEN, PutAll(args, Cons(CLOSE, r))));
    case Neg(arg) =>
      WrappedTokens(arg, 3, r);
      ConsTokens(MINUS_SIGN, PutWrapped(arg, 3, r));
    case Bin(op, left, right) =>
      var rest := PutWrapped(right, Prec(op) + 1, r);
      WrappedTokens(right, Prec(op) + 1, r);
      ConsTokens(OpTok(op), rest);
      WrappedTokens(left, Prec(op), Cons(OpTok(op), rest));
  }

  lemma {:induction false} AllTokens(args: seq<Sym>, r: Lexes)
    requires r.Success?
    ensures PutAll(args, r).Success? && TokensOf(PutAll(args, r)) == LineAll(args, TokensOf(r))
    decreases args, 0
  {
    hide TokensOf, Cons;
    if |args| == 1 {
      PutTokens(args[0], r);
    } else if |args| > 1 {
      AllTokens(args[1..], r);
      ConsTokens(COMMA_SIGN, PutAll(args[1..], r));
      PutTokens(args[0], Cons(COMMA_SIGN, PutAll(args[1..], r)));
    }
  }

  lemma {:induction false} WrappedTokens(e: Sym, prec: nat, r: Lexes)
    requires r.Success?
    ensures PutWrapped(e, prec, r).Success? && TokensOf(PutWrapped(e, prec, r)) == LineWrapped(e, prec, TokensOf(r))
    decreases e, 1
  {
    hide TokensOf, Cons;
    if Wrapped(e, prec) {
      ConsTokens(CLOSE, r);
      PutTokens(e, Cons(CLOSE, r));
      ConsTokens(OPEN, Put(e, Cons(CLOSE, r)));
    } else {
      PutTokens(e, r);
    }
  }

  // ----- the tree read, and the expression's own -----

  lemma {:induction false} FaithfulLexable(e: Sym)
    requires Faithful(e)
    ensures Lexable(e)
  {
    match e
    case Member(of, _) => FaithfulLexable(of);
    case Apply(_, args) => forall a | a in args ensures Lexable(a) { FaithfulLexable(a); }
    case Neg(arg) => FaithfulLexable(arg);
    case Bin(_, left, right) =>
      FaithfulLexable(left);
      FaithfulLexable(right);
    case _ =>
  }

  lemma {:induction false} NoMinusMember(e: Sym)
    requires Faithful(e) && MinusForm(e)
    ensures e.Num? || e.Neg?
  {
    if e.Member? && MinusForm(e.of) {
      NoMinusMember(e.of);
    }
  }

  /** The parser reads e's own tree exactly when e is faithful. */
  lemma {:induction false} ReadIsAst(e: Sym)
    requires Lexable(e)
    ensures Read(e) == Ast(e) <==> Faithful(e)
    decreases Size(e), 0
  {
    match e
    case Num(n) =>
      if n < 0 { assert Read(Num(-n)) == S.IntLiteral(-n); }
    case Neg(arg) => ReadIsAst(arg);
    case Member(of, _) =>
      if MinusForm(of) {
        if Faithful(e) { NoMinusMember(of); }
      } else {
        ReadIsAst(of);
      }
    case Apply(_, args) => ReadsAreAsts(args);
    case Bin(_, left, right) =>
      ReadIsAst(left);
      ReadIsAst(right);
    case _ =>
  }

  lemma {:induction false} ReadsAreAsts(args: seq<Sym>)
    requires forall a :: a in args ==> Lexable(a)
    ensures Positionals(Reads(args)) == Positionals(Asts(args)) <==> forall a :: a in args ==> Faithful(a)
    decreases Sizes(args), 0
  {
    if |args| > 0 {
      assert args[0] in args;
      ReadIsAst(args[0]);
      ReadsAreAsts(args[1..]);
      assert Reads(args)[1..] == Reads(args[1..]) && Asts(args)[1..] == Asts(args[1..]);
      assert Positionals(Reads(args))[1..] == Positionals(Reads(args[1..]));
      assert Positionals(Asts(args))[1..] == Positionals(Asts(args[1..]));
      assert Positionals(Reads(args))[0] == S.Positional(Read(args[0]));
      assert Positionals(Asts(args))[0] == S.Positional(Ast(args[0]));
      assert forall a :: a in args <==> a == args[0] || a in args[1..];
    }
  }

  lemma {:induction false} AstHasNoFloat(e: Sym)
    ensures !Ast(e).HasFloat()
    decreases e, 0
  {
    match e
    case Member(of, _) => AstHasNoFloat(of);
    case Apply(_, args) => AstsHaveNoFloat(args);
    case Neg(arg) => AstHasNoFloat(arg);
    case Bin(_, left, right) =>
      AstHasNoFloat(left);
      AstHasNoFloat(right);
    case _ =>
  }

  lemma {:induction false} AstsHaveNoFloat(args: seq<Sym>)
    ensures forall a :: a in Positionals(Asts(args)) ==> !a.value.HasFloat()
    decreases args, 0
  {
    if |args| > 0 {
      AstHasNoFloat(args[0]);
      AstsHaveNoFloat(args[1..]);
      assert Asts(args)[1..] == Asts(args[1..]);
    }
  }

  // ----- the round trip -----

  /** A lexable expression's text parses as what the parser reads of it. */
  lemma LexableParses(g: G.Grammar, e: Sym)
    requires WellNamed(e) && Lexable(e)
    ensures ParseText(g, Text(e)) == S.Some(Read(e))
  {
    hide Put, Line, Read, Text, Lexable, WellNamed;
    assert Text(e) + "" == Text(e);
    LexText(e, "");
    PutTokens(e, Lex(""));
    assert TokensOf(Lex("")) == G.End;
    ExprRead(g, e, G.End);
  }

  lemma {:induction false} FloatListed(ts: seq<Token>)
    requires exists t :: t in ts && t.Type() == FLOAT
    requires forall i :: 0 <= i < |ts| - 1 ==> ts[i].Type() != EOF
    ensures G.FloatLeft(G.ListOf(ts))
  {
    if ts[0].Type() != FLOAT {
      assert exists t :: t in ts[1..] && t.Type() == FLOAT;
      FloatListed(ts[1..]);
    }
  }

  /** The text of any other expression does not parse as a tree without floats. */
  lemma SpoiledParse(g: G.Grammar, e: Sym)
    requires WellNamed(e) && !Lexable(e)
    ensures ParseText(g, Text(e)) != S.Some(Ast(e))
  {
    assert Text(e) + "" == Text(e);
    LexSpoiled(e, "");
    AstHasNoFloat(e);
    hide Text, Ast, Lex, Lexable, WellNamed;
    var ts := Lex(Text(e));
    if ts.Success? {
      LexEndsWithEof(Text(e));
      FloatListed(ts.value);
      var r := g.ParseExpr(G.ListOf(ts.value));
      assert G.Reads(G.ListOf(ts.value), r);
    }
  }

  /** The printer and the parser undo each other exactly on faithful expressions. */
  lemma RoundTrip(g: G.Grammar, e: Sym)
    requires WellNamed(e)
    ensures ParseText(g, Text(e)) == S.Some(Ast(e)) <==> Faithful(e)
  {
    if Lexable(e) {
      LexableParses(g, e);
      ReadIsAst(e);
    } else {
      SpoiledParse(g, e);
      if Faithful(e) {
        FaithfulLexable(e);
      }
    }
  }

  /** Texts that say something else: a minus sign takes the field access with it,
      and a number's dot makes a float of it. */
  lemma MinusTakesTheField(g: G.Grammar, x: string, field: string)
    requires IsIdent(x) && IsIdent(field)
    ensures ParseText(g, Text(Member(Neg(Name(Argument, [x])), field)))
         == S.Some(S.Unary("-", S.Field(S.Ident(x), field)))
  {
    hide ParseText, Text, IsIdent;
    var name := Name(Argument, [x]);
    var e := Member(Neg(name), field);
    assert WellNamed(name) && Lexable(name);
    assert WellNamed(Neg(name)) && Lexable(Neg(name)) && !EndsInNumber(Neg(name));
    assert WellNamed(e) && Lexable(e);
    assert MinusForm(Neg(name)) && Strip(Neg(name)) == name;
    assert MinusForm(e) && Strip(e) == Member(name, field);
    assert Read(name) == S.Ident(Join([x])) == S.Ident(x);
    assert Read(Member(name, field)) == S.Field(Read(name), field);
    LexableParses(g, e);
  }

  lemma DotMakesAFloat(g: G.Grammar, n: nat, field: string)
    requires IsIdent(field)
    ensures ParseText(g, Text(Member(Num(n), field))) != S.Some(S.Field(S.IntLiteral(n), field))
  {
    hide ParseText, Text, IsIdent;
    SpoiledParse(g, Member(Num(n), field));
  }
}
