/** A printer of tokens for the syntax trees of types and expressions: fewest parentheses,
    by the parser's levels of precedence. */
module TreeTokens {
  import opened Lexing
  import opened Syntax
  import opened Grammar

  // ----- operators -----

  /** The token type of a binary operator; EOF for anything else. */
  function OpType(op: string): TT {
    if op == "||" then OR else if op == "&&" then AND
    else if op == "==" then EQ_EQ else if op == "!=" then BANG_EQ else if op == "~=" then TILDE_EQ
    else if op == "<" then LT else if op == ">" then GT else if op == "<=" then LT_EQ else if op == ">=" then GT_EQ
    else if op == "<<" then SHL else if op == ">>" then SHR
    else if op == "+" then PLUS else if op == "-" then MINUS
    else if op == "*" then STAR else if op == "/" then SLASH else if op == "%" then PERCENT
    else if op == "*_norelin" then STAR_NORELIN else if op == "^" then CARET
    else EOF
  }

  function UnaryType(op: string): TT {
    if op == "-" then MINUS else if op == "!" then BANG else EOF
  }

  /** The level at which the parser goes on with a token after an expression; 0 when it
      goes on at none. */
  function Rank(tt: TT): nat {
    if tt == PIPE_OP then 1
    else if tt == DOTDOT || tt == DOTDOTEQ then 2
    else if tt == OR then 3
    else if tt == AND then 4
    else if tt == EQ_EQ || tt == BANG_EQ || tt == TILDE_EQ then 5
    else if tt == LT || tt == GT || tt == LT_EQ || tt == GT_EQ then 6
    else if tt == SHL || tt == SHR then 7
    else if tt == PLUS || tt == MINUS then 8
    else if tt == STAR || tt == SLASH || tt == PERCENT || tt == STAR_NORELIN then 9
    else if tt == CARET then 10
    else if tt == AS then 12
    else if tt == DOT || tt == LBRACKET || tt == LPAREN then 13
    else if tt == LBRACE || tt == COLONCOLON then 14
    else 0
  }

  /** The levels: a closure, which takes all that follows, then the loosest operator first. */
  const ANY: nat := 0
  const PIPES: nat := 1
  const RANGES: nat := 2
  const ORS: nat := 3
  const ANDS: nat := 4
  const EQUALS: nat := 5
  const COMPARES: nat := 6
  const SHIFTS: nat := 7
  const SUMS: nat := 8
  const PRODUCTS: nat := 9
  const POWERS: nat := 10
  const UNARIES: nat := 11
  const CASTS: nat := 12
  const POSTFIXES: nat := 13
  const PRIMARIES: nat := 14

  function Level(e: Expr): (k: nat)
    ensures k <= PRIMARIES
  {
    match e
    case Closure(_, _) => ANY
    case Pipe(_, _) => PIPES
    case Range(_, _, _) => RANGES
    case Binary(op, _, _) => if Rank(OpType(op)) <= POWERS then Rank(OpType(op)) else ANY
    case Unary(_, _) => UNARIES
    case Cast(_, _) => CASTS
    case Field(_, _) => POSTFIXES
    case Method(_, _, _) => POSTFIXES
    case Call(_, _, _) => POSTFIXES
    case Index(_, _) => POSTFIXES
    case Slice(_, _, _) => POSTFIXES
    case _ => PRIMARIES
  }

  /** The level that an operator's left operand is read at. */
  function LeftLevel(k: nat): nat {
    if k == EQUALS then COMPARES else if k == COMPARES then SHIFTS else if k == POWERS then UNARIES else k
  }

  function RightLevel(k: nat): nat {
    if k == COMPARES then SUMS else if k == POWERS then POWERS else k + 1
  }

  // ----- names -----

  /** Where the first `::` of a name is; its length when there is none. */
  function Colons(name: string): (k: nat)
    ensures k <= |name| && (k < |name| ==> k + 2 <= |name| && name[k..k + 2] == "::")
  {
    if |name| < 2 then |name|
    else if name[0] == ':' && name[1] == ':' then 0
    else
      var k := Colons(name[1..]);
      assert k < |name[1..]| ==> name[1..][k..k + 2] == name[k + 1..k + 3];
      k + 1
  }

  function NameLine(name: string, tail: Tokens): Tokens
    decreases |name|
  {
    var k := Colons(name);
    if k == |name| then Cons(Token(IDENT, name), tail)
    else Cons(Token(IDENT, name[..k]), Cons(Token(COLONCOLON, "::"), NameLine(name[k + 2..], tail)))
  }

  // ----- tokens -----

  function Sign(tt: TT, text: string, tail: Tokens): Tokens {
    Cons(Token(tt, text), tail)
  }

  function Word(name: string, tail: Tokens): Tokens {
    Cons(Token(IDENT, name), tail)
  }

  predicate IsPrimitive(name: string) {
    name in KEYWORDS && KEYWORDS[name] in PRIMITIVES
  }

  function PrimitiveToken(name: string): Token {
    Token(if IsPrimitive(name) then KEYWORDS[name] else BOOL, name)
  }

  function ExprLine(e: Expr, tail: Tokens): Tokens
    decreases e, 0
  {
    match e
    case IntLiteral(n) => Cons(IntToken(n), tail)
    case FloatLiteral(digits) => Sign(FLOAT, digits, tail)
    case StringLiteral(s) => Sign(STRING, s, tail)
    case BoolLiteral(b) => if b then Sign(TRUE, "true", tail) else Sign(FALSE, "false", tail)
    case Ident(name) => NameLine(name, tail)
    case Unary(op, o) => Sign(UnaryType(op), op, Operand(o, UNARIES, tail))
    case Binary(op, l, r) =>
      Operand(l, LeftLevel(Level(e)), Sign(OpType(op), op, Operand(r, RightLevel(Level(e)), tail)))
    case Pipe(l, r) => Operand(l, PIPES, Sign(PIPE_OP, "|>", Operand(r, RANGES, tail)))
    case Range(a, b, inclusive) => Operand(a, ORS, Dots(inclusive, Operand(b, ORS, tail)))
    case Cast(x, t) => Operand(x, POSTFIXES, Sign(AS, "as", TypeLine(t, tail)))
    case Field(o, f) => Operand(o, POSTFIXES, Sign(DOT, ".", Word(f, tail)))
    case Method(o, m, args) =>
      Operand(o, POSTFIXES, Sign(DOT, ".", Word(m, Sign(LPAREN, "(", ArgsLine(args, Sign(RPAREN, ")", tail))))))
    case Call(f, args, types) =>
      var rest := Sign(LPAREN, "(", ArgsLine(args, Sign(RPAREN, ")", tail)));
      Operand(f, if f.Field? then PRIMARIES else POSTFIXES,
              if |types| == 0 then rest else Sign(LT, "<", TypeLine(types[0], Sign(GT, ">", rest))))
    case Index(o, i) =>
      if i.Range? && o.Index? then
        Operand(o.obj, POSTFIXES, Sign(LBRACKET, "[", ExprLine(o.index, ColumnLine(i, tail))))
      else if i.Range? && o.Slice? then
        Operand(o.obj, POSTFIXES, Sign(LBRACKET, "[",
            Operand(o.start, ORS, Dots(false, Operand(o.end, ORS, ColumnLine(i, tail))))))
      else Operand(o, POSTFIXES, Sign(LBRACKET, "[", ExprLine(i, Sign(RBRACKET, "]", tail))))
    case Slice(o, a, b) =>
      Operand(o, POSTFIXES, Sign(LBRACKET, "[",
          Operand(a, ORS, Dots(false, Operand(b, ORS, Sign(RBRACKET, "]", tail))))))
    case Array(es) => Sign(LBRACKET, "[", ExprsLine(es, Sign(RBRACKET, "]", tail)))
    case Struct(name, fs) => NameLine(name, Sign(LBRACE, "{", InitsLine(fs, Sign(RBRACE, "}", tail))))
    case Closure(ps, body) => Sign(PIPE, "|", ParamsLine(ps, Sign(PIPE, "|", ExprLine(body, tail))))
  }

  function Dots(inclusive: bool, tail: Tokens): Tokens {
    if inclusive then Sign(DOTDOTEQ, "..=", tail) else Sign(DOTDOT, "..", tail)
  }

  /** The second dimension of an index. */
  function ColumnLine(i: Expr, tail: Tokens): Tokens
    decreases i, 1
  {
    Sign(COMMA, ",", ExprLine(i, Sign(RBRACKET, "]", tail)))
  }

  /** In parentheses where the expression is looser than what is read there. */
  function Operand(e: Expr, level: nat, tail: Tokens): Tokens
    decreases e, 1
  {
    if Level(e) < level then Sign(LPAREN, "(", ExprLine(e, Sign(RPAREN, ")", tail))) else ExprLine(e, tail)
  }

  function ExprsLine(es: seq<Expr>, tail: Tokens): Tokens
    decreases es, 0
  {
    if |es| == 0 then tail
    else ExprLine(es[0], if |es| == 1 then tail else Sign(COMMA, ",", ExprsLine(es[1..], tail)))
  }

  function ArgsLine(args: seq<Arg>, tail: Tokens): Tokens
    decreases args, 0
  {
    if |args| == 0 then tail
    else ArgLine(args[0], if |args| == 1 then tail else Sign(COMMA, ",", ArgsLine(args[1..], tail)))
  }

  function ArgLine(a: Arg, tail: Tokens): Tokens
    decreases a, 0
  {
    match a
    case Positional(v) => ExprLine(v, tail)
    case Keyword(name, v) => Word(name, Sign(COLON, ":", ExprLine(v, tail)))
  }

  function InitsLine(fs: seq<Init>, tail: Tokens): Tokens
    decreases fs, 0
  {
    if |fs| == 0 then tail
    else InitLine(fs[0], if |fs| == 1 then tail else Sign(COMMA, ",", InitsLine(fs[1..], tail)))
  }

  function InitLine(f: Init, tail: Tokens): Tokens
    decreases f, 0
  {
    match f
    case Shorthand(name) => Word(name, tail)
    case Init(name, v) => Word(name, Sign(COLON, ":", ExprLine(v, tail)))
  }

  function ParamsLine(ps: seq<Param>, tail: Tokens): Tokens
    decreases ps, 0
  {
    if |ps| == 0 then tail
    else ParamLine(ps[0], if |ps| == 1 then tail else Sign(COMMA, ",", ParamsLine(ps[1..], tail)))
  }

  function ParamLine(p: Param, tail: Tokens): Tokens
    decreases p, 0
  {
    Word(p.name, if p.ann.Some? then Sign(COLON, ":", TypeLine(p.ann.value, tail)) else tail)
  }

  function TypeLine(t: Type, tail: Tokens): Tokens
    decreases t, 0
  {
    match t
    case Primitive(name) => Cons(PrimitiveToken(name), tail)
    case Enc(inner) => Sign(ENC, "enc", Sign(LT, "<", TypeLine(inner, Sign(GT, ">", tail))))
    case Vec(elem, size) =>
      var close := Sign(GT, ">", tail);
      Sign(VEC, "vec", Sign(LT, "<", TypeLine(elem,
          if size.Some? then Sign(COMMA, ",", SizeLine(size.value, close)) else close)))
    case Mat(elem) => Sign(MAT, "mat", Sign(LT, "<", TypeLine(elem, Sign(GT, ">", tail))))
    case SizedMat(elem, rows, cols) =>
      Sign(MAT, "mat", Sign(LT, "<", TypeLine(elem, Sign(GT, ">", Sign(LBRACKET, "[",
          ExprLine(rows, Sign(COMMA, ",", ExprLine(cols, Sign(RBRACKET, "]", tail)))))))))
    case Fn(params, ret) =>
      Sign(FN, "fn", Sign(LPAREN, "(", TypesLine(params, Sign(RPAREN, ")", Sign(ARROW, "->", TypeLine(ret, tail))))))
    case Tuple(elements) => Sign(LPAREN, "(", TypesLine(elements, Sign(RPAREN, ")", tail)))
    case Named(name, sub) => NameLine(name, if sub.Some? then Sign(DOT, ".", Word(sub.value, tail)) else tail)
  }

  /** A vector's size. A cast is written as a pipe, which the closing `>` ends. */
  function SizeLine(e: Expr, tail: Tokens): Tokens
    decreases e, 1
  {
    if e.Cast? then Operand(e.expr, PIPES, Sign(PIPE_OP, "|>", Sign(AS, "as", TypeLine(e.target, tail))))
    else ExprLine(e, tail)
  }

  function TypesLine(types: seq<Type>, tail: Tokens): Tokens
    decreases types, 0
  {
    if |types| == 0 then tail
    else TypeLine(types[0], if |types| == 1 then tail else Sign(COMMA, ",", TypesLine(types[1..], tail)))
  }

  // ----- the trees that can be written -----

  /** What is written last, outside parentheses, is a comparison. */
  predicate EndsCompared(e: Expr) {
    match e
    case Binary(op, _, r) =>
      var k := Level(e);
      k == COMPARES || (ORS <= k <= EQUALS && Level(r) >= RightLevel(k) && EndsCompared(r))
    case Pipe(_, r) => Level(r) >= RANGES && EndsCompared(r)
    case Range(_, b, _) => Level(b) >= ORS && EndsCompared(b)
    case _ => false
  }

  /** A closing `>` after it is not taken for an operator. */
  predicate Closes(e: Expr) {
    e.Cast? || EndsCompared(e)
  }

  predicate StartsAsType(t: Type) {
    !t.Fn? && !t.Tuple?
  }

  /** The parser has words for it. A struct's name is a known one, or it looks like one and
      has a field; one type argument follows a name; an index is a range in the second
      dimension only, where it does not slice; a vector's size ends in a comparison or a
      cast, for any other one takes the closing `>` for its own. */
  predicate Writable(g: Grammar, e: Expr)
    decreases e, 0
  {
    match e
    case Unary(op, o) => UnaryType(op) != EOF && Writable(g, o)
    case Binary(op, l, r) => OpType(op) != EOF && Writable(g, l) && Writable(g, r)
    case Pipe(l, r) => Writable(g, l) && Writable(g, r)
    case Range(a, b, _) => Writable(g, a) && Writable(g, b)
    case Cast(x, t) => Writable(g, x) && WritableType(g, t)
    case Field(o, _) => Writable(g, o)
    case Method(o, _, args) => Writable(g, o) && forall a :: a in args ==> Writable(g, a.value)
    case Call(f, args, types) =>
      && Writable(g, f) && (forall a :: a in args ==> Writable(g, a.value)) && |types| <= 1
      && (|types| == 1 ==> f.Ident? && StartsAsType(types[0]) && WritableType(g, types[0]))
    case Index(o, i) =>
      Writable(g, o) && Writable(g, i) && (i.Range? ==> o.Slice? || (o.Index? && !o.index.Range?))
    case Slice(o, a, b) => Writable(g, o) && Writable(g, a) && Writable(g, b)
    case Array(es) => forall x :: x in es ==> Writable(g, x)
    case Struct(name, fs) =>
      && (name in g.known || (UpperName(name) && |fs| > 0))
      && forall f :: f in fs && f.Init? ==> Writable(g, f.value)
    case Closure(ps, body) =>
      Writable(g, body) && forall p :: p in ps && p.ann.Some? ==> WritableType(g, p.ann.value)
    case _ => true
  }

  predicate WritableType(g: Grammar, t: Type)
    decreases t, 0
  {
    match t
    case Primitive(name) => IsPrimitive(name)
    case Enc(inner) => WritableType(g, inner)
    case Vec(elem, size) =>
      WritableType(g, elem) && (size.Some? ==> Writable(g, size.value) && Closes(size.value))
    case Mat(elem) => WritableType(g, elem)
    case SizedMat(elem, rows, cols) => WritableType(g, elem) && Writable(g, rows) && Writable(g, cols)
    case Fn(params, ret) => WritableType(g, ret) && forall p :: p in params ==> WritableType(g, p)
    case Tuple(elements) => forall x :: x in elements ==> WritableType(g, x)
    case Named(_, _) => true
  }
}
