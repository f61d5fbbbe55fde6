/** The parser reads the tokens of every tree that can be written back to exactly that tree,
    at every level of precedence. */
module TreeReading {
  import opened Lexing
  import opened Syntax
  import opened Grammar
  import opened TreeTokens
  import opened TreeSteps

  // ----- types -----

  /** What may follow a type. */
  predicate AfterType(tail: Tokens) {
    tail.Type() !in {DOT, COLONCOLON, LBRACKET, LPAREN}
  }

  /** The first token says what form of type is read. */
  lemma WhichForm(g: Grammar, ts: Tokens)
    ensures ts.Type() == ENC ==> g.ParseType(ts) == g.ParseEnc(ts)
    ensures ts.Type() == VEC ==> g.ParseType(ts) == g.ParseVec(ts)
    ensures ts.Type() == MAT ==> g.ParseType(ts) == g.ParseMat(ts)
    ensures ts.Type() == FN ==> g.ParseType(ts) == g.ParseFn(ts)
    ensures ts.Type() == LPAREN ==> g.ParseType(ts) == g.ParseTuple(ts)
    ensures ts.Type() == IDENT ==> g.ParseType(ts) == g.ParseNamed(ts)
  {
    hide Grammar.ParseEnc, Grammar.ParseVec, Grammar.ParseMat, Grammar.ParseFn, Grammar.ParseTuple, Grammar.ParseNamed;
    hide Threads, ReadsType, Head;
  }

  lemma PrimitiveRead(g: Grammar, name: string, tail: Tokens)
    requires IsPrimitive(name)
    ensures Yields(g.ParseType(Cons(PrimitiveToken(name), tail)), tail, Primitive(name))
  {
    hide Grammar.ParseEnc, Grammar.ParseVec, Grammar.ParseMat, Grammar.ParseFn, Grammar.ParseTuple, Grammar.ParseNamed;
  }

  lemma EncRead(g: Grammar, ts: Tokens, inner: Type, tail: Tokens)
    requires Yields(g.ParseType(ts), Sign(GT, ">", tail), inner)
    ensures Yields(g.ParseType(Sign(ENC, "enc", Sign(LT, "<", ts))), tail, Enc(inner))
  {
    hide Grammar.ParseType, Threads, ReadsType, Join, Head;
    var us := Sign(ENC, "enc", Sign(LT, "<", ts));
    assert Yields(g.ParseEnc(us), tail, Enc(inner));
    WhichForm(g, us);
  }

  lemma VecRead(g: Grammar, ts: Tokens, elem: Type, tail: Tokens)
    requires Yields(g.ParseType(ts), Sign(GT, ">", tail), elem)
    ensures Yields(g.ParseType(Sign(VEC, "vec", Sign(LT, "<", ts))), tail, Vec(elem, None))
  {
    hide Grammar.ParseType, Threads, ReadsType, Join, Head, Grammar.ParseExpr;
    var us := Sign(VEC, "vec", Sign(LT, "<", ts));
    assert Yields(g.ParseVec(us), tail, Vec(elem, None));
    WhichForm(g, us);
  }

  lemma SizedVecRead(g: Grammar, ts: Tokens, elem: Type, us: Tokens, size: Expr, tail: Tokens)
    requires Yields(g.ParseType(ts), Sign(COMMA, ",", us), elem) && Yields(g.ParseExpr(us), Sign(GT, ">", tail), size)
    ensures Yields(g.ParseType(Sign(VEC, "vec", Sign(LT, "<", ts))), tail, Vec(elem, Some(size)))
  {
    hide Grammar.ParseType, Threads, ReadsType, Join, Head, Grammar.ParseExpr;
    var vs := Sign(VEC, "vec", Sign(LT, "<", ts));
    assert Yields(g.ParseVec(vs), tail, Vec(elem, Some(size)));
    WhichForm(g, vs);
  }

  lemma MatRead(g: Grammar, ts: Tokens, elem: Type, tail: Tokens)
    requires Yields(g.ParseType(ts), Sign(GT, ">", tail), elem) && tail.Type() != LBRACKET
    ensures Yields(g.ParseType(Sign(MAT, "mat", Sign(LT, "<", ts))), tail, Mat(elem))
  {
    hide Grammar.ParseType, Threads, ReadsType, Join, Head, Grammar.ParseMatSize;
    var us := Sign(MAT, "mat", Sign(LT, "<", ts));
    assert Yields(g.ParseMat(us), tail, Mat(elem));
    WhichForm(g, us);
  }

  lemma SizedMatRead(g: Grammar, ts: Tokens, elem: Type, us: Tokens, rows: Expr, vs: Tokens, cols: Expr, tail: Tokens)
    requires Yields(g.ParseType(ts), Sign(GT, ">", Sign(LBRACKET, "[", us)), elem)
    requires Yields(g.ParseExpr(us), Sign(COMMA, ",", vs), rows)
    requires Yields(g.ParseExpr(vs), Sign(RBRACKET, "]", tail), cols)
    ensures Yields(g.ParseType(Sign(MAT, "mat", Sign(LT, "<", ts))), tail, SizedMat(elem, rows, cols))
  {
    hide Grammar.ParseType, Threads, ReadsType, Join, Head, Grammar.ParseExpr;
    var all := Sign(MAT, "mat", Sign(LT, "<", ts));
    assert Yields(g.ParseCols(vs), tail, cols);
    assert Yields(g.ParseMatSize(elem, Sign(LBRACKET, "[", us)), tail, SizedMat(elem, rows, cols)) by {
      hide Grammar.ParseCols;
    }
    assert Yields(g.ParseMat(all), tail, SizedMat(elem, rows, cols)) by {
      hide Grammar.ParseMatSize, Grammar.ParseCols;
    }
    WhichForm(g, all);
  }

  lemma FnRead(g: Grammar, ts: Tokens, params: seq<Type>, us: Tokens, ret: Type, tail: Tokens)
    requires Yields(g.ParseTypes(ts), Sign(RPAREN, ")", Sign(ARROW, "->", us)), params)
    requires Yields(g.ParseType(us), tail, ret)
    ensures Yields(g.ParseType(Sign(FN, "fn", Sign(LPAREN, "(", ts))), tail, Fn(params, ret))
  {
    var vs := Sign(FN, "fn", Sign(LPAREN, "(", ts));
    hide Grammar.ParseType, Grammar.ParseTypes, Grammar.ParseFn;
    FnForm(g, vs, ts, params, us, ret, tail);
    WhichForm(g, vs);
  }

  lemma FnForm(g: Grammar, vs: Tokens, ts: Tokens, params: seq<Type>, us: Tokens, ret: Type, tail: Tokens)
    requires vs.Type() == FN && vs.tail == Sign(LPAREN, "(", ts)
    requires Yields(g.ParseTypes(ts), Sign(RPAREN, ")", Sign(ARROW, "->", us)), params)
    requires Yields(g.ParseType(us), tail, ret)
    ensures Yields(g.ParseFn(vs), tail, Fn(params, ret))
  {
    hide Grammar.ParseType, Grammar.ParseTypes, Threads, ReadsType, Join, Head, FnOf;
    var end := Sign(RPAREN, ")", Sign(ARROW, "->", us));
    assert Yields(Expect(LPAREN, vs.tail), ts, vs.tail.head);
    assert Yields(Expect(RPAREN, end), end.tail, end.head);
    assert Yields(Expect(ARROW, end.tail), us, end.tail.head);
    assert FnOf(params, ret) == Fn(params, ret) by { FnOfIsFn(params, ret); }
  }

  lemma FnOfIsFn(params: seq<Type>, ret: Type)
    ensures FnOf(params, ret) == Fn(params, ret)
  {}

  lemma TupleTypeRead(g: Grammar, ts: Tokens, types: seq<Type>, tail: Tokens)
    requires Yields(g.ParseTypes(ts), Sign(RPAREN, ")", tail), types)
    ensures Yields(g.ParseType(Sign(LPAREN, "(", ts)), tail, Tuple(types))
  {
    var us := Sign(LPAREN, "(", ts);
    assert Yields(g.ParseTuple(us), tail, Tuple(types)) by { hide Grammar.ParseTypes; }
    hide Grammar.ParseEnc, Grammar.ParseVec, Grammar.ParseMat, Grammar.ParseFn, Grammar.ParseTuple, Grammar.ParseNamed;
    hide Grammar.ParseTypes;
  }

  lemma NamedRead(g: Grammar, name: string, sub: Option<string>, tail: Tokens)
    requires AfterType(tail)
    ensures Yields(g.ParseType(TypeLine(Named(name, sub), tail)), tail, Named(name, sub))
  {
    var rest := if sub.Some? then Sign(DOT, ".", Word(sub.value, tail)) else tail;
    var ts := NameLine(name, rest);
    assert TypeLine(Named(name, sub), tail) == ts by { hide Grammar.ParseType, NameLine; }
    hide Grammar.ParseType, Grammar.ParseNamed, ParseName, NameLine, TypeLine;
    NameRead(name, rest);
    NameStart(name, rest);
    NamedForm(g, ts, name, sub, tail);
    WhichForm(g, ts);
  }

  lemma NamedForm(g: Grammar, ts: Tokens, name: string, sub: Option<string>, tail: Tokens)
    requires ts.Type() == IDENT && tail.Type() != DOT
    requires Yields(ParseName(ts), if sub.Some? then Sign(DOT, ".", Word(sub.value, tail)) else tail, name)
    ensures Yields(g.ParseNamed(ts), tail, Named(name, sub))
  {
    hide ParseName, Threads, ReadsType, Join, Head;
  }

  lemma TypesMore(g: Grammar, ts: Tokens, t: Type, us: Tokens, more: seq<Type>, tail: Tokens)
    requires ts.Type() != RPAREN && Yields(g.ParseType(ts), Sign(COMMA, ",", us), t)
    requires Yields(g.ParseTypes(us), tail, more)
    ensures Yields(g.ParseTypes(ts), tail, [t] + more)
  {
    hide Grammar.ParseType;
  }

  lemma TypesLast(g: Grammar, ts: Tokens, t: Type, tail: Tokens)
    requires ts.Type() != RPAREN && tail.Type() != COMMA && Yields(g.ParseType(ts), tail, t)
    ensures Yields(g.ParseTypes(ts), tail, [t])
  {
    hide Grammar.ParseType;
    assert [t] + [] == [t];
  }

  lemma TypesNone(g: Grammar, tail: Tokens)
    requires tail.Type() == RPAREN
    ensures Yields(g.ParseTypes(tail), tail, [])
  {
    hide Grammar.ParseType;
  }

  lemma TypeStart(g: Grammar, t: Type, tail: Tokens)
    requires WritableType(g, t)
    ensures TypeLine(t, tail).Type() != RPAREN && (StartsAsType(t) ==> TypeLine(t, tail).Type() in TYPE_STARTS)
  {
    match t
    case Named(name, sub) => NameStart(name, if sub.Some? then Sign(DOT, ".", Word(sub.value, tail)) else tail);
    case _ =>
  }

  // ----- other lists -----

  lemma ElementsMore(g: Grammar, close: TT, ts: Tokens, e: Expr, us: Tokens, more: seq<Expr>, tail: Tokens)
    requires ts.Type() != close && Yields(g.ParseExpr(ts), Sign(COMMA, ",", us), e)
    requires Yields(g.ParseElements(close, us), tail, more)
    ensures Yields(g.ParseElements(close, ts), tail, [e] + more)
  {
    hide Grammar.ParseExpr;
  }

  lemma ElementsLast(g: Grammar, close: TT, ts: Tokens, e: Expr, tail: Tokens)
    requires ts.Type() != close && tail.Type() != COMMA && Yields(g.ParseExpr(ts), tail, e)
    ensures Yields(g.ParseElements(close, ts), tail, [e])
  {
    hide Grammar.ParseExpr;
    assert [e] + [] == [e];
  }

  lemma ElementsNone(g: Grammar, close: TT, tail: Tokens)
    requires tail.Type() == close
    ensures Yields(g.ParseElements(close, tail), tail, [])
  {
    hide Grammar.ParseExpr;
  }

  /** What one argument reads as, before a comma or the end. */
  ghost predicate ReadsArg(g: Grammar, ts: Tokens, a: Arg, rest: Tokens) {
    && ts.Type() != RPAREN && g.IsNamedArg(ts) == a.Keyword?
    && (a.Keyword? ==> ts.head.Word() == a.name)
    && Yields(g.ParseExpr(if a.Keyword? then ts.tail.tail else ts), rest, a.value)
  }

  /** A name, which may be one of three keywords, and a colon make a named argument. */
  lemma KeywordArgument(g: Grammar, tt: TT, name: string, ts: Tokens, v: Expr, rest: Tokens)
    requires tt in {IDENT, DOMAIN, SCHEME, WIRE} && Yields(g.ParseExpr(ts), rest, v) && rest.Type() != COMMA
    ensures Yields(g.ParseArgs(Sign(tt, name, Sign(COLON, ":", ts))), rest, [Keyword(name, v)])
  {
    hide Grammar.ParseExpr, Grammar.ParseArgs;
    ArgsLast(g, Sign(tt, name, Sign(COLON, ":", ts)), Keyword(name, v), rest);
  }

  lemma ArgsMore(g: Grammar, ts: Tokens, a: Arg, us: Tokens, more: seq<Arg>, tail: Tokens)
    requires ReadsArg(g, ts, a, Sign(COMMA, ",", us)) && Yields(g.ParseArgs(us), tail, more)
    ensures Yields(g.ParseArgs(ts), tail, [a] + more)
  {
    hide Grammar.ParseExpr;
  }

  lemma ArgsLast(g: Grammar, ts: Tokens, a: Arg, tail: Tokens)
    requires ReadsArg(g, ts, a, tail) && tail.Type() != COMMA
    ensures Yields(g.ParseArgs(ts), tail, [a])
  {
    hide Grammar.ParseExpr;
    assert [a] + [] == [a];
  }

  lemma ArgsNone(g: Grammar, tail: Tokens)
    requires tail.Type() == RPAREN
    ensures Yields(g.ParseArgs(tail), tail, [])
  {
    hide Grammar.ParseExpr;
  }

  lemma InitRead(g: Grammar, name: string, ts: Tokens, v: Expr, rest: Tokens)
    requires Yields(g.ParseExpr(ts), rest, v)
    ensures Yields(g.ParseInit(Word(name, Sign(COLON, ":", ts))), rest, Init.Init(name, v))
  {
    hide Grammar.ParseExpr;
  }

  lemma ShorthandRead(g: Grammar, name: string, rest: Tokens)
    requires rest.Type() != COLON
    ensures Yields(g.ParseInit(Word(name, rest)), rest, Shorthand(name))
  {
    hide Grammar.ParseExpr;
  }

  lemma InitsMore(g: Grammar, ts: Tokens, f: Init, us: Tokens, more: seq<Init>, tail: Tokens)
    requires ts.Type() != RBRACE && Yields(g.ParseInit(ts), Sign(COMMA, ",", us), f)
    requires Yields(g.ParseInits(us), tail, more)
    ensures Yields(g.ParseInits(ts), tail, [f] + more)
  {
    hide Grammar.ParseInit;
  }

  lemma InitsLast(g: Grammar, ts: Tokens, f: Init, tail: Tokens)
    requires ts.Type() != RBRACE && tail.Type() != COMMA && Yields(g.ParseInit(ts), tail, f)
    ensures Yields(g.ParseInits(ts), tail, [f])
  {
    hide Grammar.ParseInit;
    assert [f] + [] == [f];
  }

  lemma InitsNone(g: Grammar, tail: Tokens)
    requires tail.Type() == RBRACE
    ensures Yields(g.ParseInits(tail), tail, [])
  {
    hide Grammar.ParseInit;
  }

  lemma ParamRead(g: Grammar, name: string, ts: Tokens, t: Type, rest: Tokens)
    requires Yields(g.ParseType(ts), rest, t)
    ensures Yields(g.ParseParam(Word(name, Sign(COLON, ":", ts))), rest, Param(name, Some(t)))
  {
    hide Grammar.ParseType;
  }

  lemma BareParamRead(g: Grammar, name: string, rest: Tokens)
    requires rest.Type() != COLON
    ensures Yields(g.ParseParam(Word(name, rest)), rest, Param(name, None))
  {
    hide Grammar.ParseType;
  }

  lemma ParamsMore(g: Grammar, ts: Tokens, p: Param, us: Tokens, more: seq<Param>, tail: Tokens)
    requires ts.Type() != PIPE && Yields(g.ParseParam(ts), Sign(COMMA, ",", us), p)
    requires Yields(g.ParseParams(us), tail, more)
    ensures Yields(g.ParseParams(ts), tail, [p] + more)
  {
    hide Grammar.ParseParam;
  }

  lemma ParamsLast(g: Grammar, ts: Tokens, p: Param, tail: Tokens)
    requires ts.Type() != PIPE && tail.Type() != COMMA && Yields(g.ParseParam(ts), tail, p)
    ensures Yields(g.ParseParams(ts), tail, [p])
  {
    hide Grammar.ParseParam;
    assert [p] + [] == [p];
  }

  lemma ParamsNone(g: Grammar, tail: Tokens)
    requires tail.Type() == PIPE
    ensures Yields(g.ParseParams(tail), tail, [])
  {
    hide Grammar.ParseParam;
  }

  // ----- how written expressions begin -----

  const STARTS: set<TT> := {INT, FLOAT, STRING, TRUE, FALSE, IDENT, MINUS, BANG, LPAREN, LBRACKET, PIPE}

  /** Whether what is written first is an operand or what a postfix form is applied to. */
  predicate HasFirst(e: Expr) {
    e.Binary? || e.Pipe? || e.Range? || e.Cast? || e.Field? || e.Method? || e.Call? || e.Index? || e.Slice?
  }

  function First(e: Expr): (f: Expr)
    requires HasFirst(e)
    ensures f < e
  {
    match e
    case Binary(_, l, _) => l
    case Pipe(l, _) => l
    case Range(a, _, _) => a
    case Cast(x, _) => x
    case Field(o, _) => o
    case Method(o, _, _) => o
    case Call(f, _, _) => f
    case Index(o, i) => if i.Range? && o.Index? then o.obj else if i.Range? && o.Slice? then o.obj else o
    case Slice(o, _, _) => o
  }

  function FirstLevel(e: Expr): nat
    requires HasFirst(e)
  {
    match e
    case Binary(_, _, _) => LeftLevel(Level(e))
    case Pipe(_, _) => PIPES
    case Range(_, _, _) => ORS
    case Call(f, _, _) => if f.Field? then PRIMARIES else POSTFIXES
    case _ => POSTFIXES
  }

  /** What is written after it. */
  function AfterFirst(e: Expr, tail: Tokens): Tokens
    requires HasFirst(e)
  {
    match e
    case Binary(op, _, r) => Sign(OpType(op), op, Operand(r, RightLevel(Level(e)), tail))
    case Pipe(_, r) => Sign(PIPE_OP, "|>", Operand(r, RANGES, tail))
    case Range(_, b, inclusive) => Dots(inclusive, Operand(b, ORS, tail))
    case Cast(_, t) => Sign(AS, "as", TypeLine(t, tail))
    case Field(_, f) => Sign(DOT, ".", Word(f, tail))
    case Method(_, m, args) => Sign(DOT, ".", Word(m, Sign(LPAREN, "(", ArgsLine(args, Sign(RPAREN, ")", tail)))))
    case Call(f, args, types) =>
      var rest := Sign(LPAREN, "(", ArgsLine(args, Sign(RPAREN, ")", tail)));
      if |types| == 0 then rest else Sign(LT, "<", TypeLine(types[0], Sign(GT, ">", rest)))
    case Index(o, i) =>
      Sign(LBRACKET, "[",
           if i.Range? && o.Index? then ExprLine(o.index, ColumnLine(i, tail))
           else if i.Range? && o.Slice? then InsideLine(o, ColumnLine(i, tail))
           else ExprLine(i, Sign(RBRACKET, "]", tail)))
    case Slice(_, _, _) => Sign(LBRACKET, "[", InsideLine(e, Sign(RBRACKET, "]", tail)))
  }

  function InsideLine(e: Expr, tail: Tokens): Tokens
    requires e.Slice?
  {
    Operand(e.start, ORS, Dots(false, Operand(e.end, ORS, tail)))
  }

  lemma FirstLine(e: Expr, tail: Tokens)
    requires HasFirst(e)
    ensures ExprLine(e, tail) == Operand(First(e), FirstLevel(e), AfterFirst(e, tail))
  {
    hide ArgsLine, TypeLine, Level;
  }

  lemma FirstWritable(g: Grammar, e: Expr)
    requires HasFirst(e) && Writable(g, e)
    ensures Writable(g, First(e))
  {}

  lemma FirstLevels(g: Grammar, e: Expr, tail: Tokens)
    requires HasFirst(e) && Writable(g, e)
    ensures Level(e) >= SUMS ==> FirstLevel(e) >= SUMS
    ensures Level(e) >= CASTS ==> FirstLevel(e) >= CASTS
    ensures AfterFirst(e, tail).Type() != COLON
  {
    hide ArgsLine, TypeLine, ExprLine, Operand;
  }

  lemma {:induction false} ExprStart(g: Grammar, e: Expr, tail: Tokens)
    requires Writable(g, e)
    ensures ExprLine(e, tail).Type() in STARTS
    ensures Level(e) >= CASTS ==> ExprLine(e, tail).Type() !in {MINUS, BANG}
    decreases e, 1
  {
    if HasFirst(e) {
      FirstLine(e, tail);
      FirstWritable(g, e);
      FirstLevels(g, e, tail);
      OperandStart(g, First(e), FirstLevel(e), AfterFirst(e, tail));
    } else {
      PlainStart(g, e, tail);
    }
  }

  lemma PlainStart(g: Grammar, e: Expr, tail: Tokens)
    requires Writable(g, e) && !HasFirst(e)
    ensures ExprLine(e, tail).Type() in STARTS
    ensures Level(e) >= CASTS ==> ExprLine(e, tail).Type() !in {MINUS, BANG}
  {
    hide ExprsLine, InitsLine, ParamsLine, NameLine;
    if e.Ident? { NameStart(e.name, tail); }
    if e.Struct? { NameStart(e.name, Sign(LBRACE, "{", InitsLine(e.fields, Sign(RBRACE, "}", tail)))); }
  }

  lemma {:induction false} OperandStart(g: Grammar, e: Expr, level: nat, tail: Tokens)
    requires Writable(g, e)
    ensures Operand(e, level, tail).Type() in STARTS
    ensures level >= CASTS ==> Operand(e, level, tail).Type() !in {MINUS, BANG}
    decreases e, 2
  {
    hide ExprLine;
    if Level(e) >= level { ExprStart(g, e, tail); }
  }
}
