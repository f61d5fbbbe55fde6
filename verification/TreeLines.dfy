/** Which tokens a tree is written with: the signs and words of the grammar, and the tree's
    own names and literals. */
module TreeLines {
  import opened Lexing
  import opened Syntax
  import opened Grammar
  import opened TreeTokens
  import opened TreeReading

  type Property = Token -> bool

  predicate Each(P: Property, ts: Tokens) {
    ts.Cons? ==> P(ts.head) && Each(P, ts.tail)
  }

  /** It holds of every token that the grammar itself writes. */
  ghost predicate OfSigns(P: Property) {
    && P(Token(LPAREN, "(")) && P(Token(RPAREN, ")")) && P(Token(LBRACKET, "[")) && P(Token(RBRACKET, "]"))
    && P(Token(LBRACE, "{")) && P(Token(RBRACE, "}")) && P(Token(COMMA, ",")) && P(Token(COLON, ":"))
    && P(Token(DOT, ".")) && P(Token(PIPE, "|")) && P(Token(PIPE_OP, "|>")) && P(Token(AS, "as"))
    && P(Token(ARROW, "->")) && P(Token(FN, "fn")) && P(Token(ENC, "enc")) && P(Token(VEC, "vec"))
    && P(Token(MAT, "mat")) && P(Token(LT, "<")) && P(Token(GT, ">")) && P(Token(DOTDOT, ".."))
    && P(Token(DOTDOTEQ, "..=")) && P(Token(COLONCOLON, "::")) && P(Token(TRUE, "true")) && P(Token(FALSE, "false"))
  }

  ghost predicate OfOperators(P: Property) {
    && (forall op :: OpType(op) != EOF ==> P(Token(OpType(op), op)))
    && (forall op :: UnaryType(op) != EOF ==> P(Token(UnaryType(op), op)))
    && (forall name :: IsPrimitive(name) ==> P(PrimitiveToken(name)))
  }

  // ----- a tree's own tokens -----

  /** Every part of a name. */
  predicate OwnName(P: Property, name: string)
    decreases |name|
  {
    var k := Colons(name);
    if k == |name| then P(Token(IDENT, name)) else P(Token(IDENT, name[..k])) && OwnName(P, name[k + 2..])
  }

  /** It holds of every name and literal of a tree. */
  predicate Own(P: Property, e: Expr)
    decreases e, 0
  {
    match e
    case IntLiteral(n) => P(IntToken(n))
    case FloatLiteral(digits) => P(Token(FLOAT, digits))
    case StringLiteral(s) => P(Token(STRING, s))
    case BoolLiteral(_) => true
    case Ident(name) => OwnName(P, name)
    case Unary(_, o) => Own(P, o)
    case Binary(_, l, r) => Own(P, l) && Own(P, r)
    case Pipe(l, r) => Own(P, l) && Own(P, r)
    case Range(a, b, _) => Own(P, a) && Own(P, b)
    case Cast(x, t) => Own(P, x) && OwnType(P, t)
    case Field(o, f) => Own(P, o) && P(Token(IDENT, f))
    case Method(o, m, args) => Own(P, o) && P(Token(IDENT, m)) && forall a :: a in args ==> OwnArg(P, a)
    case Call(f, args, types) =>
      Own(P, f) && (forall a :: a in args ==> OwnArg(P, a)) && forall t :: t in types ==> OwnType(P, t)
    case Index(o, i) => Own(P, o) && Own(P, i)
    case Slice(o, a, b) => Own(P, o) && Own(P, a) && Own(P, b)
    case Array(es) => forall x :: x in es ==> Own(P, x)
    case Struct(name, fs) => OwnName(P, name) && forall f :: f in fs ==> OwnInit(P, f)
    case Closure(ps, body) => Own(P, body) && forall p :: p in ps ==> OwnParam(P, p)
  }

  predicate OwnArg(P: Property, a: Arg)
    decreases a, 0
  {
    (a.Keyword? ==> P(Token(IDENT, a.name))) && Own(P, a.value)
  }

  predicate OwnInit(P: Property, f: Init)
    decreases f, 0
  {
    P(Token(IDENT, f.name)) && (f.Init? ==> Own(P, f.value))
  }

  predicate OwnParam(P: Property, p: Param)
    decreases p, 0
  {
    P(Token(IDENT, p.name)) && (p.ann.Some? ==> OwnType(P, p.ann.value))
  }

  predicate OwnType(P: Property, t: Type)
    decreases t, 0
  {
    match t
    case Primitive(_) => true
    case Enc(inner) => OwnType(P, inner)
    case Vec(elem, size) => OwnType(P, elem) && (size.Some? ==> Own(P, size.value))
    case Mat(elem) => OwnType(P, elem)
    case SizedMat(elem, rows, cols) => OwnType(P, elem) && Own(P, rows) && Own(P, cols)
    case Fn(params, ret) => OwnType(P, ret) && forall p :: p in params ==> OwnType(P, p)
    case Tuple(elements) => forall x :: x in elements ==> OwnType(P, x)
    case Named(name, sub) => OwnName(P, name) && (sub.Some? ==> P(Token(IDENT, sub.value)))
  }

  // ----- one token -----

  /** Whether it holds of a list begun by a sign is what it was. */
  lemma SignsEach(P: Property)
    requires OfSigns(P)
    ensures forall tt, text, tail {:trigger Each(P, Sign(tt, text, tail))} ::
      P(Token(tt, text)) ==> (Each(P, Sign(tt, text, tail)) <==> Each(P, tail))
    ensures forall inclusive, tail {:trigger Each(P, Dots(inclusive, tail))} ::
      Each(P, Dots(inclusive, tail)) <==> Each(P, tail)
    ensures forall name, tail {:trigger Each(P, Word(name, tail))} ::
      Each(P, Word(name, tail)) <==> P(Token(IDENT, name)) && Each(P, tail)
  {}

  lemma {:induction false} NameEach(P: Property, name: string, tail: Tokens)
    requires OfSigns(P)
    ensures Each(P, NameLine(name, tail)) <==> OwnName(P, name) && Each(P, tail)
    decreases |name|
  {
    hide Colons;
    var k := Colons(name);
    if k < |name| { NameEach(P, name[k + 2..], tail); }
  }

  // ----- expressions -----

  /** What is written after the first operand has of its own. */
  predicate OwnAfter(P: Property, e: Expr)
    requires HasFirst(e)
  {
    match e
    case Binary(_, _, r) => Own(P, r)
    case Pipe(_, r) => Own(P, r)
    case Range(_, b, _) => Own(P, b)
    case Cast(_, t) => OwnType(P, t)
    case Field(_, f) => P(Token(IDENT, f))
    case Method(_, m, args) => P(Token(IDENT, m)) && forall a :: a in args ==> OwnArg(P, a)
    case Call(_, args, types) => (forall a :: a in args ==> OwnArg(P, a)) && forall t :: t in types ==> OwnType(P, t)
    case Index(o, i) =>
      (if i.Range? && o.Index? then Own(P, o.index)
       else if i.Range? && o.Slice? then Own(P, o.start) && Own(P, o.end) else true) && Own(P, i)
    case Slice(_, a, b) => Own(P, a) && Own(P, b)
  }

  lemma OwnParts(P: Property, e: Expr)
    requires HasFirst(e)
    ensures Own(P, e) <==> Own(P, First(e)) && OwnAfter(P, e)
  {
    hide OwnArg, OwnType;
  }

  /** A tree's tokens are its own and the grammar's. */
  lemma {:induction false} ExprEach(g: Grammar, P: Property, e: Expr, tail: Tokens)
    requires Writable(g, e) && OfSigns(P) && OfOperators(P)
    ensures Each(P, ExprLine(e, tail)) <==> Own(P, e) && Each(P, tail)
    decreases e, 2
  {
    if HasFirst(e) {
      AfterEach(g, P, e, tail);
      FirstWritable(g, e);
      FirstLine(e, tail);
      OwnParts(P, e);
      hide ExprLine, Operand, Writable, AfterFirst, First, FirstLevel, Each, OfSigns, OfOperators, Own, OwnAfter;
      OperandEach(g, P, First(e), FirstLevel(e), AfterFirst(e, tail));
    } else {
      PlainEach(g, P, e, tail);
    }
  }

  lemma {:induction false} OperandEach(g: Grammar, P: Property, e: Expr, level: nat, tail: Tokens)
    requires Writable(g, e) && OfSigns(P) && OfOperators(P)
    ensures Each(P, Operand(e, level, tail)) <==> Own(P, e) && Each(P, tail)
    decreases e, 3
  {
    hide ExprLine, Each, Own, Sign, Writable, OfOperators;
    SignsEach(P);
    ExprEach(g, P, e, tail);
    ExprEach(g, P, e, Sign(RPAREN, ")", tail));
  }

  lemma {:induction false} AfterEach(g: Grammar, P: Property, e: Expr, tail: Tokens)
    requires HasFirst(e) && Writable(g, e) && OfSigns(P) && OfOperators(P)
    ensures Each(P, AfterFirst(e, tail)) <==> OwnAfter(P, e) && Each(P, tail)
    decreases e, 1
  {
    hide Each, ExprLine, Operand, ArgsLine, TypeLine, Level, Rank, OpType, Sign, Word, Dots, Own, OwnArg, OwnType;
    SignsEach(P);
    match e
    case Binary(op, l, r) => OperandEach(g, P, r, RightLevel(Level(e)), tail);
    case Pipe(_, r) => OperandEach(g, P, r, RANGES, tail);
    case Range(_, b, _) => OperandEach(g, P, b, ORS, tail);
    case Cast(_, t) => TypeEach(g, P, t, tail);
    case Field(_, f) =>
    case Method(_, m, args) => CallEach(g, P, args, tail);
    case Call(_, args, types) =>
      CallEach(g, P, args, tail);
      if |types| > 0 {
        assert types == [types[0]];
        TypeEach(g, P, types[0], Sign(GT, ">", Sign(LPAREN, "(", ArgsLine(args, Sign(RPAREN, ")", tail)))));
      }
    case Index(o, i) => IndexEach(g, P, e, tail);
    case Slice(_, _, _) => InsideEach(g, P, e, Sign(RBRACKET, "]", tail));
  }

  lemma {:induction false} IndexEach(g: Grammar, P: Property, e: Expr, tail: Tokens)
    requires e.Index? && Writable(g, e) && OfSigns(P) && OfOperators(P)
    ensures Each(P, AfterFirst(e, tail)) <==> OwnAfter(P, e) && Each(P, tail)
    decreases e, 0
  {
    hide Each, ExprLine, Operand, InsideLine, Sign, Own;
    SignsEach(P);
    var o, i := e.obj, e.index;
    ExprEach(g, P, i, Sign(RBRACKET, "]", tail));
    if i.Range? {
      var column := ColumnLine(i, tail);
      if o.Index? { ExprEach(g, P, o.index, column); } else { InsideEach(g, P, o, column); }
    }
  }

  lemma {:induction false} InsideEach(g: Grammar, P: Property, e: Expr, tail: Tokens)
    requires e.Slice? && Writable(g, e) && OfSigns(P) && OfOperators(P)
    ensures Each(P, InsideLine(e, tail)) <==> Own(P, e.start) && Own(P, e.end) && Each(P, tail)
    decreases e, 0
  {
    hide Each, Operand, Dots, Own;
    SignsEach(P);
    OperandEach(g, P, e.end, ORS, tail);
    OperandEach(g, P, e.start, ORS, Dots(false, Operand(e.end, ORS, tail)));
  }

  lemma {:induction false} CallEach(g: Grammar, P: Property, args: seq<Arg>, tail: Tokens)
    requires (forall a :: a in args ==> Writable(g, a.value)) && OfSigns(P) && OfOperators(P)
    ensures Each(P, Sign(LPAREN, "(", ArgsLine(args, Sign(RPAREN, ")", tail))))
       <==> (forall a :: a in args ==> OwnArg(P, a)) && Each(P, tail)
    decreases args, 1
  {
    hide Each, ArgsLine, Writable, Sign, OwnArg;
    SignsEach(P);
    ArgsEach(g, P, args, Sign(RPAREN, ")", tail));
  }

  lemma {:induction false} PlainEach(g: Grammar, P: Property, e: Expr, tail: Tokens)
    requires !HasFirst(e) && Writable(g, e) && OfSigns(P) && OfOperators(P)
    ensures Each(P, ExprLine(e, tail)) <==> Own(P, e) && Each(P, tail)
    decreases e, 0
  {
    hide Operand, NameLine, ExprsLine, InitsLine, ParamsLine, OwnName, OwnInit, OwnParam, UnaryType, Sign, Word;
    SignsEach(P);
    match e
    case Ident(name) => NameEach(P, name, tail);
    case Unary(op, o) => OperandEach(g, P, o, UNARIES, tail);
    case Array(es) => ExprsEach(g, P, es, Sign(RBRACKET, "]", tail));
    case Struct(name, fs) =>
      InitsEach(g, P, fs, Sign(RBRACE, "}", tail));
      NameEach(P, name, Sign(LBRACE, "{", InitsLine(fs, Sign(RBRACE, "}", tail))));
    case Closure(ps, body) =>
      ExprEach(g, P, body, tail);
      ParamsEach(g, P, ps, Sign(PIPE, "|", ExprLine(body, tail)));
    case _ => LiteralEach(P, e, tail);
  }

  lemma LiteralEach(P: Property, e: Expr, tail: Tokens)
    requires e.IntLiteral? || e.FloatLiteral? || e.StringLiteral? || e.BoolLiteral?
    requires OfSigns(P)
    ensures Each(P, ExprLine(e, tail)) <==> Own(P, e) && Each(P, tail)
  {}

  // ----- lists -----

  lemma {:induction false} ExprsEach(g: Grammar, P: Property, es: seq<Expr>, tail: Tokens)
    requires (forall x :: x in es ==> Writable(g, x)) && OfSigns(P) && OfOperators(P)
    ensures Each(P, ExprsLine(es, tail)) <==> (forall x :: x in es ==> Own(P, x)) && Each(P, tail)
    decreases es, 0
  {
    hide Each, ExprLine, Writable, Sign, Own;
    SignsEach(P);
    if |es| > 0 {
      assert es == [es[0]] + es[1..];
      ExprsEach(g, P, es[1..], tail);
      ExprEach(g, P, es[0], if |es| == 1 then tail else Sign(COMMA, ",", ExprsLine(es[1..], tail)));
    }
  }

  lemma {:induction false} ArgsEach(g: Grammar, P: Property, args: seq<Arg>, tail: Tokens)
    requires (forall a :: a in args ==> Writable(g, a.value)) && OfSigns(P) && OfOperators(P)
    ensures Each(P, ArgsLine(args, tail)) <==> (forall a :: a in args ==> OwnArg(P, a)) && Each(P, tail)
    decreases args, 0
  {
    hide Each, ArgLine, Writable, Sign, OwnArg;
    SignsEach(P);
    if |args| > 0 {
      assert args == [args[0]] + args[1..];
      ArgsEach(g, P, args[1..], tail);
      ArgEach(g, P, args[0], if |args| == 1 then tail else Sign(COMMA, ",", ArgsLine(args[1..], tail)));
    }
  }

  lemma {:induction false} ArgEach(g: Grammar, P: Property, a: Arg, tail: Tokens)
    requires Writable(g, a.value) && OfSigns(P) && OfOperators(P)
    ensures Each(P, ArgLine(a, tail)) <==> OwnArg(P, a) && Each(P, tail)
    decreases a, 0
  {
    hide Each, ExprLine, Writable, Sign, Word, Own;
    SignsEach(P);
    ExprEach(g, P, a.value, tail);
  }

  lemma {:induction false} InitsEach(g: Grammar, P: Property, fs: seq<Init>, tail: Tokens)
    requires (forall f :: f in fs && f.Init? ==> Writable(g, f.value)) && OfSigns(P) && OfOperators(P)
    ensures Each(P, InitsLine(fs, tail)) <==> (forall f :: f in fs ==> OwnInit(P, f)) && Each(P, tail)
    decreases fs, 0
  {
    hide Each, InitLine, Writable, Sign, OwnInit;
    SignsEach(P);
    if |fs| > 0 {
      assert fs == [fs[0]] + fs[1..];
      InitsEach(g, P, fs[1..], tail);
      InitEach(g, P, fs[0], if |fs| == 1 then tail else Sign(COMMA, ",", InitsLine(fs[1..], tail)));
    }
  }

  lemma {:induction false} InitEach(g: Grammar, P: Property, f: Init, tail: Tokens)
    requires (f.Init? ==> Writable(g, f.value)) && OfSigns(P) && OfOperators(P)
    ensures Each(P, InitLine(f, tail)) <==> OwnInit(P, f) && Each(P, tail)
    decreases f, 0
  {
    hide Each, ExprLine, Writable, Sign, Word, Own;
    SignsEach(P);
    if f.Init? { ExprEach(g, P, f.value, tail); }
  }

  lemma {:induction false} ParamsEach(g: Grammar, P: Property, ps: seq<Param>, tail: Tokens)
    requires (forall p :: p in ps && p.ann.Some? ==> WritableType(g, p.ann.value)) && OfSigns(P) && OfOperators(P)
    ensures Each(P, ParamsLine(ps, tail)) <==> (forall p :: p in ps ==> OwnParam(P, p)) && Each(P, tail)
    decreases ps, 0
  {
    hide Each, ParamLine, WritableType, Sign, OwnParam;
    SignsEach(P);
    if |ps| > 0 {
      assert ps == [ps[0]] + ps[1..];
      ParamsEach(g, P, ps[1..], tail);
      ParamEach(g, P, ps[0], if |ps| == 1 then tail else Sign(COMMA, ",", ParamsLine(ps[1..], tail)));
    }
  }

  lemma {:induction false} ParamEach(g: Grammar, P: Property, p: Param, tail: Tokens)
    requires (p.ann.Some? ==> WritableType(g, p.ann.value)) && OfSigns(P) && OfOperators(P)
    ensures Each(P, ParamLine(p, tail)) <==> OwnParam(P, p) && Each(P, tail)
    decreases p, 0
  {
    hide Each, TypeLine, WritableType, Sign, Word, OwnType;
    SignsEach(P);
    if p.ann.Some? { TypeEach(g, P, p.ann.value, tail); }
  }

  lemma {:induction false} TypesEach(g: Grammar, P: Property, types: seq<Type>, tail: Tokens)
    requires (forall t :: t in types ==> WritableType(g, t)) && OfSigns(P) && OfOperators(P)
    ensures Each(P, TypesLine(types, tail)) <==> (forall t :: t in types ==> OwnType(P, t)) && Each(P, tail)
    decreases types, 0
  {
    hide Each, TypeLine, WritableType, Sign, OwnType;
    SignsEach(P);
    if |types| > 0 {
      assert types == [types[0]] + types[1..];
      TypesEach(g, P, types[1..], tail);
      TypeEach(g, P, types[0], if |types| == 1 then tail else Sign(COMMA, ",", TypesLine(types[1..], tail)));
    }
  }

  // ----- types -----

  lemma {:induction false} TypeEach(g: Grammar, P: Property, t: Type, tail: Tokens)
    requires WritableType(g, t) && OfSigns(P) && OfOperators(P)
    ensures Each(P, TypeLine(t, tail)) <==> OwnType(P, t) && Each(P, tail)
    decreases t, 1
  {
    hide NameLine, TypesLine, ExprLine, Writable, Sign, Word, OwnName, Own, IsPrimitive, PrimitiveToken;
    SignsEach(P);
    match t
    case Primitive(name) =>
    case Enc(inner) => TypeEach(g, P, inner, Sign(GT, ">", tail));
    case Mat(elem) => TypeEach(g, P, elem, Sign(GT, ">", tail));
    case Vec(elem, size) => VecEach(g, P, t, tail);
    case SizedMat(elem, rows, cols) => MatEach(g, P, t, tail);
    case Fn(params, ret) =>
      TypeEach(g, P, ret, tail);
      TypesEach(g, P, params, Sign(RPAREN, ")", Sign(ARROW, "->", TypeLine(ret, tail))));
    case Tuple(elements) => TypesEach(g, P, elements, Sign(RPAREN, ")", tail));
    case Named(name, sub) =>
      NameEach(P, name, if sub.Some? then Sign(DOT, ".", Word(sub.value, tail)) else tail);
  }

  lemma {:induction false} VecEach(g: Grammar, P: Property, t: Type, tail: Tokens)
    requires t.Vec? && WritableType(g, t) && OfSigns(P) && OfOperators(P)
    ensures Each(P, TypeLine(t, tail)) <==> OwnType(P, t) && Each(P, tail)
    decreases t, 0
  {
    hide Each, ExprLine, Writable, SizeLine, Closes, Sign, Own;
    SignsEach(P);
    var close := Sign(GT, ">", tail);
    if t.size.None? {
      TypeEach(g, P, t.elem, close);
    } else {
      SizeEach(g, P, t.size.value, close);
      TypeEach(g, P, t.elem, Sign(COMMA, ",", SizeLine(t.size.value, close)));
    }
  }

  lemma {:induction false} SizeEach(g: Grammar, P: Property, e: Expr, tail: Tokens)
    requires Writable(g, e) && OfSigns(P) && OfOperators(P)
    ensures Each(P, SizeLine(e, tail)) <==> Own(P, e) && Each(P, tail)
    decreases e, 4
  {
    hide Each, ExprLine, TypeLine, Operand, Sign, OwnType;
    SignsEach(P);
    if e.Cast? {
      TypeEach(g, P, e.target, tail);
      OperandEach(g, P, e.expr, PIPES, Sign(PIPE_OP, "|>", Sign(AS, "as", TypeLine(e.target, tail))));
    } else {
      ExprEach(g, P, e, tail);
    }
  }

  lemma {:induction false} MatEach(g: Grammar, P: Property, t: Type, tail: Tokens)
    requires t.SizedMat? && WritableType(g, t) && OfSigns(P) && OfOperators(P)
    ensures Each(P, TypeLine(t, tail)) <==> OwnType(P, t) && Each(P, tail)
    decreases t, 0
  {
    hide Each, ExprLine, Writable, Sign, Own;
    SignsEach(P);
    ExprEach(g, P, t.cols, Sign(RBRACKET, "]", tail));
    var vs := ExprLine(t.cols, Sign(RBRACKET, "]", tail));
    ExprEach(g, P, t.rows, Sign(COMMA, ",", vs));
    var us := ExprLine(t.rows, Sign(COMMA, ",", vs));
    TypeEach(g, P, t.elem, Sign(GT, ">", Sign(LBRACKET, "[", us)));
  }
}
