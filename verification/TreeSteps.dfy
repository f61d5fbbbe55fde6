/** One step of the parser at a time, over the tokens of a written tree: how a level reads
    on from what the next one has read. */
module TreeSteps {
  import opened Lexing
  import opened Syntax
  import opened Grammar
  import opened TreeTokens

  /** The parsing function of a level. */
  function ParseAt(g: Grammar, k: nat, ts: Tokens): Parsed<Expr> {
    if k == ANY then g.ParseExpr(ts)
    else if k == PIPES then g.ParsePipe(ts)
    else if k == RANGES then g.ParseRange(ts)
    else if k == ORS then g.ParseOr(ts)
    else if k == ANDS then g.ParseAnd(ts)
    else if k == EQUALS then g.ParseEq(ts)
    else if k == COMPARES then g.ParseCmp(ts)
    else if k == SHIFTS then g.ParseShift(ts)
    else if k == SUMS then g.ParseAdd(ts)
    else if k == PRODUCTS then g.ParseMul(ts)
    else if k == POWERS then g.ParsePow(ts)
    else if k == UNARIES then g.ParseUnary(ts)
    else if k == CASTS then g.ParseCast(ts)
    else if k == POSTFIXES then g.ParsePostfix(ts)
    else g.ParsePrimary(ts)
  }

  predicate IsLoop(k: nat) {
    k == PIPES || k == ORS || k == ANDS || k == SHIFTS || k == SUMS || k == PRODUCTS || k == POSTFIXES
  }

  /** The loop of a level, going on from a tree; the others do not go on. */
  function LoopAt(g: Grammar, k: nat, left: Expr, ts: Tokens): Parsed<Expr> {
    if k == PIPES then g.PipeLoop(left, ts)
    else if k == ORS then g.OrLoop(left, ts)
    else if k == ANDS then g.AndLoop(left, ts)
    else if k == SHIFTS then g.ShiftLoop(left, ts)
    else if k == SUMS then g.AddLoop(left, ts)
    else if k == PRODUCTS then g.MulLoop(left, ts)
    else if k == POSTFIXES then g.PostfixLoop(left, ts)
    else Parsed(Empty, ts, Some(left))
  }

  /** r reads the tree and stops at rest. */
  predicate Yields<T(==)>(r: Parsed<T>, rest: Tokens, tree: T) {
    r.rest == rest && r.val == Some(tree)
  }

  predicate SameAs<T(==)>(r: Parsed<T>, s: Parsed<T>) {
    r.rest == s.rest && r.val == s.val
  }

  /** A `<` here begins no type arguments, and the attempt to read them changes nothing. */
  predicate Calm(g: Grammar, tail: Tokens) {
    tail.Type() == LT ==> g.TryTurbofish(tail).arg.None? && g.TryTurbofish(tail).rest == tail
  }

  // ----- a level takes over what the next one has read -----

  lemma FromTighter(g: Grammar, k: nat, ts: Tokens, rest: Tokens, tree: Expr)
    requires PIPES <= k < PRIMARIES && Yields(ParseAt(g, k + 1, ts), rest, tree)
    requires !IsLoop(k) ==> Rank(rest.Type()) != k
    requires k == UNARIES ==> ts.Type() !in {MINUS, BANG}
    ensures SameAs(ParseAt(g, k, ts), LoopAt(g, k, tree, rest))
  {
    if k <= ANDS { FromLogic(g, k, ts, rest, tree); }
    else if k <= PRODUCTS { FromArithmetic(g, k, ts, rest, tree); }
    else { FromUnary(g, k, ts, rest, tree); }
  }

  lemma FromLogic(g: Grammar, k: nat, ts: Tokens, rest: Tokens, tree: Expr)
    requires PIPES <= k <= ANDS && Yields(ParseAt(g, k + 1, ts), rest, tree)
    requires !IsLoop(k) ==> Rank(rest.Type()) != k
    ensures SameAs(ParseAt(g, k, ts), LoopAt(g, k, tree, rest))
  {
    hide Grammar.ParseEq, Grammar.PipeLoop, Grammar.OrLoop, Grammar.AndLoop, Grammar.PostfixLoop;
    hide Grammar.ParseCmp, Grammar.ParseShift, Grammar.ParseAdd, Grammar.ParseMul, Grammar.ParsePow, Grammar.ParseUnary;
    hide Grammar.ParseCast, Grammar.ParsePostfix, Grammar.ParsePrimary, Grammar.ShiftLoop, Grammar.AddLoop;
    hide Grammar.MulLoop;
    if k == PIPES { hide Grammar.ParseRange; }
    if k == RANGES { hide Grammar.ParseOr; }
    if k == ORS { hide Grammar.ParseAnd; }
  }

  lemma FromArithmetic(g: Grammar, k: nat, ts: Tokens, rest: Tokens, tree: Expr)
    requires EQUALS <= k <= PRODUCTS && Yields(ParseAt(g, k + 1, ts), rest, tree)
    requires !IsLoop(k) ==> Rank(rest.Type()) != k
    ensures SameAs(ParseAt(g, k, ts), LoopAt(g, k, tree, rest))
  {
    hide Grammar.ParsePow, Grammar.PipeLoop, Grammar.OrLoop, Grammar.AndLoop, Grammar.PostfixLoop;
    hide Grammar.ParsePipe, Grammar.ParseRange, Grammar.ParseOr, Grammar.ParseAnd, Grammar.ParseUnary;
    hide Grammar.ParseExpr;
    hide Grammar.ParseCast, Grammar.ParsePostfix, Grammar.ParsePrimary, Grammar.ShiftLoop, Grammar.AddLoop;
    hide Grammar.MulLoop;
    if k == EQUALS { hide Grammar.ParseCmp; }
    if k == COMPARES { hide Grammar.ParseShift; }
    if k == SHIFTS { hide Grammar.ParseAdd; }
    if k == SUMS { hide Grammar.ParseMul; }
  }

  lemma FromUnary(g: Grammar, k: nat, ts: Tokens, rest: Tokens, tree: Expr)
    requires POWERS <= k < PRIMARIES && Yields(ParseAt(g, k + 1, ts), rest, tree)
    requires !IsLoop(k) ==> Rank(rest.Type()) != k
    requires k == UNARIES ==> ts.Type() !in {MINUS, BANG}
    ensures SameAs(ParseAt(g, k, ts), LoopAt(g, k, tree, rest))
  {
    hide Grammar.PipeLoop, Grammar.OrLoop, Grammar.AndLoop, Grammar.PostfixLoop, Grammar.ParsePrimary;
    hide Grammar.ParsePipe, Grammar.ParseRange, Grammar.ParseOr, Grammar.ParseAnd, Grammar.ParseExpr, Grammar.ParseEq;
    hide Grammar.ShiftLoop, Grammar.AddLoop, Grammar.MulLoop, Grammar.ParseCmp, Grammar.ParseShift, Grammar.ParseAdd;
    hide Grammar.ParseMul, Grammar.ParseType;
    if k == POWERS { hide Grammar.ParseUnary; }
    if k == UNARIES { hide Grammar.ParseCast; }
    if k == CASTS { hide Grammar.ParsePostfix; }
  }

  /** A loop stops at a token that its level does not go on with. */
  lemma LoopEnds(g: Grammar, k: nat, left: Expr, tail: Tokens)
    requires (IsLoop(k) ==> Rank(tail.Type()) != k) && Calm(g, tail)
    ensures Yields(LoopAt(g, k, left, tail), tail, left)
  {
    hide Grammar.ParseRange, Grammar.ParseAnd, Grammar.ParseEq, Grammar.ParseAdd, Grammar.ParseMul, Grammar.ParsePow;
    hide Grammar.ParseType, Grammar.ParseMember, Grammar.ParseIndex, Grammar.ParseCall, Grammar.TryTurbofish;
  }

  // ----- one more operand -----

  lemma OrMore(g: Grammar, left: Expr, ts: Tokens, rest: Tokens, right: Expr)
    requires Yields(g.ParseAnd(ts), rest, right)
    ensures SameAs(g.OrLoop(left, Sign(OR, "||", ts)), g.OrLoop(Binary("||", left, right), rest))
  {
    hide Grammar.ParseAnd;
  }

  lemma AndMore(g: Grammar, left: Expr, ts: Tokens, rest: Tokens, right: Expr)
    requires Yields(g.ParseEq(ts), rest, right)
    ensures SameAs(g.AndLoop(left, Sign(AND, "&&", ts)), g.AndLoop(Binary("&&", left, right), rest))
  {
    hide Grammar.ParseEq;
  }

  lemma ShiftMore(g: Grammar, tt: TT, op: string, left: Expr, ts: Tokens, rest: Tokens, right: Expr)
    requires Rank(tt) == SHIFTS && Yields(g.ParseAdd(ts), rest, right)
    ensures SameAs(g.ShiftLoop(left, Sign(tt, op, ts)), g.ShiftLoop(Binary(op, left, right), rest))
  {
    hide Grammar.ParseAdd;
  }

  lemma AddMore(g: Grammar, tt: TT, op: string, left: Expr, ts: Tokens, rest: Tokens, right: Expr)
    requires Rank(tt) == SUMS && Yields(g.ParseMul(ts), rest, right)
    ensures SameAs(g.AddLoop(left, Sign(tt, op, ts)), g.AddLoop(Binary(op, left, right), rest))
  {
    hide Grammar.ParseMul;
  }

  lemma MulMore(g: Grammar, tt: TT, op: string, left: Expr, ts: Tokens, rest: Tokens, right: Expr)
    requires Rank(tt) == PRODUCTS && Yields(g.ParsePow(ts), rest, right)
    ensures SameAs(g.MulLoop(left, Sign(tt, op, ts)), g.MulLoop(Binary(op, left, right), rest))
  {
    hide Grammar.ParsePow;
  }

  /** The five loops over operators: one more operand on the right. */
  lemma LoopMore(g: Grammar, op: string, left: Expr, ts: Tokens, rest: Tokens, right: Expr)
    requires var k := Rank(OpType(op));
      IsLoop(k) && k <= PRODUCTS && Yields(ParseAt(g, k + 1, ts), rest, right)
    ensures var k := Rank(OpType(op));
      SameAs(LoopAt(g, k, left, Sign(OpType(op), op, ts)), LoopAt(g, k, Binary(op, left, right), rest))
  {
    hide Grammar.ParseAnd, Grammar.ParseEq, Grammar.ParseAdd, Grammar.ParseMul, Grammar.ParsePow, Grammar.OrLoop;
    hide Grammar.AndLoop, Grammar.ShiftLoop, Grammar.AddLoop, Grammar.MulLoop, Grammar.ParsePipe, Grammar.ParseRange;
    hide Grammar.ParseOr, Grammar.ParseCmp, Grammar.ParseShift, Grammar.PipeLoop, Grammar.PostfixLoop;
    var k, tt := Rank(OpType(op)), OpType(op);
    if k == ORS { OrMore(g, left, ts, rest, right); }
    else if k == ANDS { AndMore(g, left, ts, rest, right); }
    else if k == SHIFTS { ShiftMore(g, tt, op, left, ts, rest, right); }
    else if k == SUMS { AddMore(g, tt, op, left, ts, rest, right); }
    else { MulMore(g, tt, op, left, ts, rest, right); }
  }

  lemma PipeMore(g: Grammar, left: Expr, ts: Tokens, rest: Tokens, right: Expr)
    requires ts.Type() != AS && Yields(g.ParseRange(ts), rest, right)
    ensures SameAs(g.PipeLoop(left, Sign(PIPE_OP, "|>", ts)), g.PipeLoop(Pipe(left, right), rest))
  {
    hide Grammar.ParseRange, Grammar.ParseType;
  }

  /** A pipe into `as` is a cast. */
  lemma PipeAs(g: Grammar, left: Expr, ts: Tokens, rest: Tokens, target: Type)
    requires Yields(g.ParseType(ts), rest, target)
    ensures SameAs(g.PipeLoop(left, Sign(PIPE_OP, "|>", Sign(AS, "as", ts))), g.PipeLoop(Cast(left, target), rest))
  {
    hide Grammar.ParseRange, Grammar.ParseType;
  }

  // ----- the levels that do not loop -----

  lemma RangeStep(g: Grammar, ts: Tokens, a: Expr, inclusive: bool, us: Tokens, b: Expr, rest: Tokens)
    requires Yields(g.ParseOr(ts), Dots(inclusive, us), a) && Yields(g.ParseOr(us), rest, b)
    ensures Yields(g.ParseRange(ts), rest, Range(a, b, inclusive))
  {
    hide Grammar.ParseOr;
  }

  lemma EqStep(g: Grammar, ts: Tokens, l: Expr, op: string, us: Tokens, r: Expr, rest: Tokens)
    requires Rank(OpType(op)) == EQUALS
    requires Yields(g.ParseCmp(ts), Sign(OpType(op), op, us), l) && Yields(g.ParseCmp(us), rest, r)
    ensures Yields(g.ParseEq(ts), rest, Binary(op, l, r))
  {
    hide Grammar.ParseCmp;
  }

  lemma CmpStep(g: Grammar, ts: Tokens, l: Expr, op: string, us: Tokens, r: Expr, rest: Tokens)
    requires Rank(OpType(op)) == COMPARES
    requires Yields(g.ParseShift(ts), Sign(OpType(op), op, us), l) && Yields(g.ParseAdd(us), rest, r)
    ensures Yields(g.ParseCmp(ts), rest, Binary(op, l, r))
  {
    hide Grammar.ParseShift, Grammar.ParseAdd;
  }

  lemma PowStep(g: Grammar, ts: Tokens, l: Expr, us: Tokens, r: Expr, rest: Tokens)
    requires Yields(g.ParseUnary(ts), Sign(CARET, "^", us), l) && Yields(g.ParsePow(us), rest, r)
    ensures Yields(g.ParsePow(ts), rest, Binary("^", l, r))
  {
    hide Grammar.ParseUnary;
  }

  lemma UnaryStep(g: Grammar, op: string, ts: Tokens, o: Expr, rest: Tokens)
    requires UnaryType(op) != EOF && Yields(g.ParseUnary(ts), rest, o)
    ensures Yields(g.ParseUnary(Sign(UnaryType(op), op, ts)), rest, Unary(op, o))
  {
    hide Grammar.ParseCast;
  }

  lemma CastStep(g: Grammar, ts: Tokens, x: Expr, us: Tokens, t: Type, rest: Tokens)
    requires Yields(g.ParsePostfix(ts), Sign(AS, "as", us), x) && Yields(g.ParseType(us), rest, t)
    ensures Yields(g.ParseCast(ts), rest, Cast(x, t))
  {
    hide Grammar.ParsePostfix, Grammar.ParseType;
  }

  // ----- after a postfix expression -----

  lemma FieldMore(g: Grammar, o: Expr, f: string, tail: Tokens)
    requires tail.Type() != LPAREN
    ensures SameAs(g.PostfixLoop(o, Sign(DOT, ".", Word(f, tail))), g.PostfixLoop(Field(o, f), tail))
  {
    var ts := Sign(DOT, ".", Word(f, tail));
    assert Yields(g.ParseMember(o, ts), tail, Field(o, f)) by {
      hide Grammar.ParseArgs, Grammar.PostfixLoop;
    }
    hide Grammar.ParseMember;
  }

  lemma MethodMore(g: Grammar, o: Expr, m: string, ts: Tokens, args: seq<Arg>, tail: Tokens)
    requires Yields(g.ParseArgs(ts), Sign(RPAREN, ")", tail), args)
    ensures SameAs(g.PostfixLoop(o, Sign(DOT, ".", Word(m, Sign(LPAREN, "(", ts)))),
        g.PostfixLoop(Method(o, m, args), tail))
  {
    var us := Sign(DOT, ".", Word(m, Sign(LPAREN, "(", ts)));
    assert Yields(g.ParseMember(o, us), tail, Method(o, m, args)) by {
      hide Grammar.ParseArgs, Grammar.PostfixLoop;
    }
    hide Grammar.ParseMember, Grammar.ParseArgs;
  }

  lemma CallRead(g: Grammar, f: Expr, types: seq<Type>, ts: Tokens, args: seq<Arg>, tail: Tokens)
    requires Yields(g.ParseArgs(ts), Sign(RPAREN, ")", tail), args)
    ensures Yields(g.ParseCall(f, types, Sign(LPAREN, "(", ts)), tail, Call(f, args, types))
  {
    hide Grammar.ParseArgs, Grammar.PostfixLoop;
  }

  lemma CallMore(g: Grammar, f: Expr, ts: Tokens, args: seq<Arg>, tail: Tokens)
    requires Yields(g.ParseArgs(ts), Sign(RPAREN, ")", tail), args)
    ensures SameAs(g.PostfixLoop(f, Sign(LPAREN, "(", ts)), g.PostfixLoop(Call(f, args, []), tail))
  {
    hide Grammar.ParseCall, Grammar.ParseArgs, Grammar.PostfixLoop;
    CallRead(g, f, [], ts, args, tail);
    LoopCalls(g, f, Sign(LPAREN, "(", ts));
  }

  lemma LoopCalls(g: Grammar, f: Expr, ts: Tokens)
    requires ts.Type() == LPAREN && g.ParseCall(f, [], ts).val.Some?
    ensures var m := g.ParseCall(f, [], ts); SameAs(g.PostfixLoop(f, ts), g.PostfixLoop(m.val.value, m.rest))
  {
    hide Grammar.ParseCall, Grammar.ParseMember, Grammar.ParseIndex, Grammar.TryTurbofish;
  }

  /** Type arguments are taken where a type, a `>` and a `(` follow a name and a `<`. */
  lemma FishTaken(g: Grammar, ts: Tokens, t: Type, rest: Tokens)
    requires ts.Type() in TYPE_STARTS && Yields(g.ParseType(ts), Sign(GT, ">", rest), t) && rest.Type() == LPAREN
    ensures g.TryTurbofish(Sign(LT, "<", ts)).arg == Some(t) && g.TryTurbofish(Sign(LT, "<", ts)).rest == rest
  {
    hide Grammar.ParseType;
  }

  lemma GenericCallMore(g: Grammar, f: Expr, ts: Tokens, t: Type, us: Tokens, args: seq<Arg>, tail: Tokens)
    requires f.Ident? && ts.Type() in TYPE_STARTS && Yields(g.ParseArgs(us), Sign(RPAREN, ")", tail), args)
    requires Yields(g.ParseType(ts), Sign(GT, ">", Sign(LPAREN, "(", us)), t)
    ensures SameAs(g.PostfixLoop(f, Sign(LT, "<", ts)), g.PostfixLoop(Call(f, args, [t]), tail))
  {
    FishTaken(g, ts, t, Sign(LPAREN, "(", us));
    assert [t] + [] == [t];
    CallRead(g, f, [t], us, args, tail);
    hide Grammar.ParseCall, Grammar.ParseArgs, Grammar.TryTurbofish, Grammar.ParseType;
  }

  lemma IndexMore(g: Grammar, o: Expr, ts: Tokens, i: Expr, tail: Tokens)
    requires Yields(g.ParseExpr(ts), Sign(RBRACKET, "]", tail), i)
    ensures SameAs(g.PostfixLoop(o, Sign(LBRACKET, "[", ts)), g.PostfixLoop(g.Indexed(o, i), tail))
  {
    var us := Sign(LBRACKET, "[", ts);
    assert Yields(g.ParseIndex(o, us), tail, g.Indexed(o, i)) by {
      hide Grammar.ParseExpr, Grammar.PostfixLoop, Grammar.Indexed;
    }
    hide Grammar.ParseIndex, Grammar.Indexed, Grammar.ParseExpr;
  }

  lemma ColumnMore(g: Grammar, o: Expr, ts: Tokens, i: Expr, us: Tokens, j: Expr, tail: Tokens)
    requires Yields(g.ParseExpr(ts), Sign(COMMA, ",", us), i)
    requires Yields(g.ParseExpr(us), Sign(RBRACKET, "]", tail), j)
    ensures SameAs(g.PostfixLoop(o, Sign(LBRACKET, "[", ts)), g.PostfixLoop(Index(g.Indexed(o, i), j), tail))
  {
    var vs := Sign(LBRACKET, "[", ts);
    assert Yields(g.ParseCols(us), tail, j) by { hide Grammar.ParseExpr; }
    assert Yields(g.ParseIndex(o, vs), tail, Index(g.Indexed(o, i), j)) by {
      hide Grammar.ParseExpr, Grammar.PostfixLoop, Grammar.Indexed, Grammar.ParseCols;
    }
    hide Grammar.ParseIndex, Grammar.Indexed, Grammar.ParseExpr, Grammar.ParseCols;
  }

  // ----- primary forms -----

  lemma LiteralRead(g: Grammar, e: Expr, tail: Tokens)
    requires e.IntLiteral? || e.FloatLiteral? || e.StringLiteral? || e.BoolLiteral?
    ensures Yields(g.ParsePrimary(ExprLine(e, tail)), tail, e)
  {
    hide Grammar.ParseClosure, Grammar.ParseElements, Grammar.ParseParen, Grammar.ParseIdent;
  }

  lemma ParenRead(g: Grammar, ts: Tokens, e: Expr, tail: Tokens)
    requires Yields(g.ParseExpr(ts), Sign(RPAREN, ")", tail), e)
    ensures Yields(g.ParsePrimary(Sign(LPAREN, "(", ts)), tail, e)
  {
    assert Yields(g.ParseParen(Sign(LPAREN, "(", ts)), tail, e) by {
      hide Grammar.ParseExpr, Grammar.ParseElements, Grammar.ParsePrimary;
    }
    hide Grammar.ParseParen, Grammar.ParseClosure, Grammar.ParseElements, Grammar.ParseIdent, Grammar.ParseExpr;
  }

  lemma ArrayRead(g: Grammar, ts: Tokens, es: seq<Expr>, tail: Tokens)
    requires Yields(g.ParseElements(RBRACKET, ts), Sign(RBRACKET, "]", tail), es)
    ensures Yields(g.ParsePrimary(Sign(LBRACKET, "[", ts)), tail, Array(es))
  {
    hide Grammar.ParseParen, Grammar.ParseClosure, Grammar.ParseElements, Grammar.ParseIdent, Grammar.ParseExpr;
  }

  /** A tuple is an array too. */
  lemma TupleRead(g: Grammar, ts: Tokens, e: Expr, us: Tokens, es: seq<Expr>, tail: Tokens)
    requires Yields(g.ParseExpr(ts), Sign(COMMA, ",", us), e)
    requires Yields(g.ParseElements(RPAREN, us), Sign(RPAREN, ")", tail), es)
    ensures Yields(g.ParsePrimary(Sign(LPAREN, "(", ts)), tail, Array([e] + es))
  {
    assert Yields(g.ParseParen(Sign(LPAREN, "(", ts)), tail, Array([e] + es)) by {
      hide Grammar.ParseExpr, Grammar.ParseElements, Grammar.ParsePrimary;
    }
    hide Grammar.ParseParen, Grammar.ParseClosure, Grammar.ParseElements, Grammar.ParseIdent, Grammar.ParseExpr;
  }

  /** An operator on its own before a comma or a closing parenthesis is a name. */
  lemma OperatorName(g: Grammar, tt: TT, op: string, tail: Tokens)
    requires tt in {PLUS, MINUS, STAR} && tail.Type() in {COMMA, RPAREN}
    ensures Yields(g.ParsePrimary(Sign(tt, op, tail)), tail, Ident("op_" + op))
  {
    hide Grammar.ParseParen, Grammar.ParseClosure, Grammar.ParseElements, Grammar.ParseIdent, Grammar.ParseExpr;
  }

  /** Three keywords are names in an expression. */
  lemma KeywordName(g: Grammar, tt: TT, word: string, tail: Tokens)
    requires tt in {SCHEME, WIRE, DOMAIN}
    ensures Yields(g.ParsePrimary(Sign(tt, word, tail)), tail, Ident(word))
  {
    hide Grammar.ParseParen, Grammar.ParseClosure, Grammar.ParseElements, Grammar.ParseIdent, Grammar.ParseExpr;
  }

  lemma NameStart(name: string, tail: Tokens)
    ensures NameLine(name, tail).Type() == IDENT
  {}

  lemma {:induction false} NameRead(name: string, tail: Tokens)
    requires tail.Type() != COLONCOLON
    ensures Yields(ParseName(NameLine(name, tail)), tail, name)
    decreases |name|
  {
    var k := Colons(name);
    if k < |name| {
      var rest := name[k + 2..];
      NameRead(rest, tail);
      NameStart(rest, tail);
      assert name == name[..k] + "::" + rest;
    }
  }

  lemma IdentRead(g: Grammar, name: string, tail: Tokens)
    requires tail.Type() != COLONCOLON && tail.Type() != LBRACE
    ensures Yields(g.ParsePrimary(NameLine(name, tail)), tail, Ident(name))
  {
    hide ParseName, NameLine, Grammar.ParseInits, UpperName;
    NameRead(name, tail);
    NameStart(name, tail);
  }

  lemma StructRead(g: Grammar, name: string, ts: Tokens, fs: seq<Init>, tail: Tokens)
    requires name in g.known || (UpperName(name) && ts.Type() == IDENT && ts.Next() in {COLON, COMMA, RBRACE})
    requires Yields(g.ParseInits(ts), Sign(RBRACE, "}", tail), fs)
    ensures Yields(g.ParsePrimary(NameLine(name, Sign(LBRACE, "{", ts))), tail, Struct(name, fs))
  {
    hide ParseName, NameLine, Grammar.ParseInits, UpperName, Grammar.ParsePrimary, Grammar.ParseIdent;
    var us := NameLine(name, Sign(LBRACE, "{", ts));
    NameRead(name, Sign(LBRACE, "{", ts));
    NameStart(name, Sign(LBRACE, "{", ts));
    StructForm(g, us, name, ts, fs, tail);
    PrimaryIsIdent(g, us);
  }

  lemma StructForm(g: Grammar, us: Tokens, name: string, ts: Tokens, fs: seq<Init>, tail: Tokens)
    requires name in g.known || (UpperName(name) && ts.Type() == IDENT && ts.Next() in {COLON, COMMA, RBRACE})
    requires us.Type() == IDENT && Yields(ParseName(us), Sign(LBRACE, "{", ts), name)
    requires Yields(g.ParseInits(ts), Sign(RBRACE, "}", tail), fs)
    ensures Yields(g.ParseIdent(us), tail, Struct(name, fs))
  {
    hide ParseName, Grammar.ParseInits, UpperName, Threads, Reads;
  }

  lemma PrimaryIsIdent(g: Grammar, ts: Tokens)
    requires ts.Type() == IDENT
    ensures g.ParsePrimary(ts) == g.ParseIdent(ts)
  {
    hide Grammar.ParseIdent, Grammar.ParseClosure, Grammar.ParseElements, Grammar.ParseParen;
  }

  lemma ClosureRead(g: Grammar, ts: Tokens, ps: seq<Param>, us: Tokens, body: Expr, tail: Tokens)
    requires Yields(g.ParseParams(ts), Sign(PIPE, "|", us), ps)
    requires us.Type() != LBRACE && Yields(g.ParseExpr(us), tail, body)
    ensures Yields(g.ParsePrimary(Sign(PIPE, "|", ts)), tail, Closure(ps, body))
  {
    assert Yields(g.ParseClosure(Sign(PIPE, "|", ts)), tail, Closure(ps, body)) by {
      hide Grammar.ParseParams, Grammar.ParseExpr, Grammar.ParsePrimary;
    }
    hide Grammar.ParseClosure, Grammar.ParseElements, Grammar.ParseIdent, Grammar.ParseParen, Grammar.ParseExpr;
    hide Grammar.ParseParams;
  }
}
