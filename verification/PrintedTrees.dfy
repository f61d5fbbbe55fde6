/** The parser over the tokens of a printed symbolic expression. `Line` lists the tokens
    and `Read` is the tree the parser makes of them, which is the expression's own tree
    except where a field is taken of a minus form: postfix binds tighter than the minus,
    so the minus is read outside the field. One lemma for each precedence level says that
    the level's method reads exactly the expression and stops at the token after it. */
module PrintedTrees {
  import opened Lexing
  import opened Symbolic
  import opened PrintedTokens
  import G = Grammar
  import S = Syntax

  type Tokens = G.Tokens

  // ----- the tokens, as the parser's list -----

  function LineName(parts: seq<string>, tail: Tokens): Tokens {
    if |parts| == 0 then tail
    else if |parts| == 1 then G.Cons(Word(parts[0]), tail)
    else G.Cons(Word(parts[0]), G.Cons(Token(COLONCOLON, "::"), LineName(parts[1..], tail)))
  }

  function Line(e: Sym, tail: Tokens): Tokens
    decreases e, 0
  {
    match e
    case Flag(b) => G.Cons(if b then Token(TRUE, "true") else Token(FALSE, "false"), tail)
    case Str(s) => G.Cons(Token(STRING, s), tail)
    case Num(n) => if n < 0 then G.Cons(MINUS_SIGN, G.Cons(IntToken(-n), tail)) else G.Cons(IntToken(n), tail)
    case Name(_, parts) => LineName(parts, tail)
    case Member(of, field) => LineWrapped(of, 3, G.Cons(DOT_SIGN, G.Cons(Word(field), tail)))
    case Apply(func, args) => LineName(func, G.Cons(OPEN, LineAll(args, G.Cons(CLOSE, tail))))
    case Neg(arg) => G.Cons(MINUS_SIGN, LineWrapped(arg, 3, tail))
    case Bin(op, left, right) =>
      LineWrapped(left, Prec(op), G.Cons(OpTok(op), LineWrapped(right, Prec(op) + 1, tail)))
  }

  function LineAll(args: seq<Sym>, tail: Tokens): Tokens
    decreases args, 0
  {
    if |args| == 0 then tail
    else if |args| == 1 then Line(args[0], tail)
    else Line(args[0], G.Cons(COMMA_SIGN, LineAll(args[1..], tail)))
  }

  function LineWrapped(e: Sym, prec: nat, tail: Tokens): Tokens
    decreases e, 1
  {
    if Wrapped(e, prec) then G.Cons(OPEN, Line(e, G.Cons(CLOSE, tail))) else Line(e, tail)
  }

  // ----- the trees -----

  function Positionals(es: seq<S.Expr>): (r: seq<S.Arg>)
    ensures |r| == |es|
  {
    if |es| == 0 then [] else [S.Positional(es[0])] + Positionals(es[1..])
  }

  /** e's own tree. */
  function Ast(e: Sym): S.Expr {
    match e
    case Flag(b) => S.BoolLiteral(b)
    case Str(s) => S.StringLiteral(s)
    case Num(n) => if n < 0 then S.Unary("-", S.IntLiteral(-n)) else S.IntLiteral(n)
    case Name(_, parts) => S.Ident(Join(parts))
    case Member(of, field) => S.Field(Ast(of), field)
    case Apply(func, args) => S.Call(S.Ident(Join(func)), Positionals(Asts(args)), [])
    case Neg(arg) => S.Unary("-", Ast(arg))
    case Bin(op, left, right) => S.Binary(Spelling(op), Ast(left), Ast(right))
  }

  function Asts(args: seq<Sym>): (r: seq<S.Expr>)
    ensures |r| == |args|
  {
    if |args| == 0 then [] else [Ast(args[0])] + Asts(args[1..])
  }

  /** Text that starts with a minus sign outside parentheses. */
  predicate MinusForm(e: Sym) {
    match e
    case Num(n) => n < 0
    case Neg(_) => true
    case Member(of, _) => MinusForm(of)
    case _ => false
  }

  function Size(e: Sym): (n: nat)
    ensures n > 0
  {
    match e
    case Flag(_) => 1
    case Str(_) => 1
    case Num(n) => if n < 0 then 2 else 1
    case Name(_, _) => 1
    case Member(of, _) => 1 + Size(of)
    case Apply(_, args) => 1 + Sizes(args)
    case Neg(arg) => 1 + Size(arg)
    case Bin(_, left, right) => 1 + Size(left) + Size(right)
  }

  function Sizes(args: seq<Sym>): (n: nat)
  {
    if |args| == 0 then 0 else 1 + Size(args[0]) + Sizes(args[1..])
  }

  /** What follows that minus sign. */
  function Strip(e: Sym): (r: Sym)
    requires MinusForm(e)
    ensures Size(r) < Size(e)
    ensures WellNamed(e) ==> WellNamed(r)
  {
    match e
    case Num(n) => Num(-n)
    case Neg(arg) => arg
    case Member(of, field) => Member(Strip(of), field)
  }

  /** The tree the parser reads: a minus sign takes everything up to the next
      operator, field accesses included. */
  function Read(e: Sym): S.Expr
    decreases Size(e)
  {
    if MinusForm(e) then S.Unary("-", Read(Strip(e)))
    else match e
    case Flag(b) => S.BoolLiteral(b)
    case Str(s) => S.StringLiteral(s)
    case Num(n) => S.IntLiteral(n)
    case Name(_, parts) => S.Ident(Join(parts))
    case Member(of, field) => S.Field(Read(of), field)
    case Apply(func, args) => S.Call(S.Ident(Join(func)), Positionals(Reads(args)), [])
    case Bin(op, left, right) => S.Binary(Spelling(op), Read(left), Read(right))
  }

  function Reads(args: seq<Sym>): (r: seq<S.Expr>)
    ensures |r| == |args|
    decreases Sizes(args)
  {
    if |args| == 0 then [] else [Read(args[0])] + Reads(args[1..])
  }

  lemma {:induction false} LineMinus(e: Sym, tail: Tokens)
    requires MinusForm(e)
    ensures Line(e, tail) == G.Cons(MINUS_SIGN, LineWrapped(Strip(e), 3, tail))
  {
    if e.Member? {
      LineMinus(e.of, G.Cons(DOT_SIGN, G.Cons(Word(e.field), tail)));
    }
  }

  lemma {:induction false} StripLexable(e: Sym)
    requires MinusForm(e) && Lexable(e)
    ensures Lexable(Strip(e))
    ensures EndsInNumber(Strip(e)) ==> EndsInNumber(e)
  {
    if e.Member? {
      StripLexable(e.of);
    }
  }

  // ----- what may follow -----

  predicate Closing(tail: Tokens) {
    tail.Type() in {EOF, RPAREN, COMMA}
  }

  predicate AfterTerm(tail: Tokens) {
    Closing(tail) || tail.Type() in {PLUS, MINUS}
  }

  predicate AfterFactor(tail: Tokens) {
    AfterTerm(tail) || tail.Type() in {STAR, SLASH, PERCENT}
  }

  predicate AfterAtom(tail: Tokens) {
    AfterFactor(tail) || tail.Type() == DOT
  }

  /** r reads tree and stops at rest. */
  predicate Yields(r: G.Parsed<S.Expr>, rest: Tokens, tree: S.Expr) {
    r.rest == rest && r.val == S.Some(tree)
  }

  predicate SameAs(r: G.Parsed<S.Expr>, s: G.Parsed<S.Expr>) {
    r.rest == s.rest && r.val == s.val
  }

  // ----- atoms -----

  lemma {:induction false} NameRead(parts: seq<string>, tail: Tokens)
    requires IsQualified(parts) && tail.Type() != COLONCOLON
    ensures var r := G.ParseName(LineName(parts, tail)); r.rest == tail && r.val == S.Some(Join(parts))
    decreases |parts|
  {
    assert parts[0] in parts;
    if |parts| > 1 {
      NameRead(parts[1..], tail);
      assert parts[1] in parts;
    }
  }

  lemma NameHead(parts: seq<string>, tail: Tokens)
    requires |parts| > 0
    ensures LineName(parts, tail).Type() == IDENT
  {}

  lemma IdentRead(g: G.Grammar, parts: seq<string>, tail: Tokens)
    requires IsQualified(parts) && tail.Type() != COLONCOLON && tail.Type() != LBRACE
    ensures Yields(g.ParsePrimary(LineName(parts, tail)), tail, S.Ident(Join(parts)))
  {
    hide G.ParseName, LineName, G.Grammar.ParseInits;
    NameRead(parts, tail);
    NameHead(parts, tail);
  }

  lemma LoopEnds(g: G.Grammar, e: S.Expr, tail: Tokens)
    requires AfterFactor(tail)
    ensures Yields(g.PostfixLoop(e, tail), tail, e)
  {
    hide G.Grammar.ParseMember, G.Grammar.ParseIndex, G.Grammar.ParseCall, G.Grammar.TryTurbofish;
  }

  // ----- one step of the parser -----

  lemma LiteralRead(g: G.Grammar, t: Token, tail: Tokens, tree: S.Expr)
    requires
      || (t.IntToken? && tree == S.IntLiteral(t.n))
      || (t == Token(STRING, t.Word()) && tree == S.StringLiteral(t.Word()))
      || (t == Token(TRUE, "true") && tree == S.BoolLiteral(true))
      || (t == Token(FALSE, "false") && tree == S.BoolLiteral(false))
    ensures Yields(g.ParsePrimary(G.Cons(t, tail)), tail, tree)
  {
    hide G.Grammar.ParseClosure, G.Grammar.ParseElements, G.Grammar.ParseParen, G.Grammar.ParseIdent;
  }

  lemma PostfixFrom(g: G.Grammar, ts: Tokens, rest: Tokens, tree: S.Expr)
    requires Yields(g.ParsePrimary(ts), rest, tree)
    ensures SameAs(g.ParsePostfix(ts), g.PostfixLoop(tree, rest))
  {
    hide G.Grammar.ParsePrimary, G.Grammar.PostfixLoop;
  }

  lemma MemberStep(g: G.Grammar, e: S.Expr, field: string, tail: Tokens)
    requires tail.Type() != LPAREN
    ensures SameAs(g.PostfixLoop(e, G.Cons(DOT_SIGN, G.Cons(Word(field), tail))),
        g.PostfixLoop(S.Field(e, field), tail))
  {
    var ts := G.Cons(DOT_SIGN, G.Cons(Word(field), tail));
    assert g.ParseMember(e, ts).rest == tail && g.ParseMember(e, ts).val == S.Some(S.Field(e, field)) by {
      hide G.Grammar.ParseArgs, G.Grammar.PostfixLoop;
    }
    hide G.Grammar.ParseMember;
  }

  lemma CallStep(g: G.Grammar, e: S.Expr, args: seq<S.Arg>, ts: Tokens, tail: Tokens)
    requires g.ParseArgs(ts).rest == G.Cons(CLOSE, tail) && g.ParseArgs(ts).val == S.Some(args)
    ensures SameAs(g.PostfixLoop(e, G.Cons(OPEN, ts)), g.PostfixLoop(S.Call(e, args, []), tail))
  {
    var m := g.ParseCall(e, [], G.Cons(OPEN, ts));
    assert m.rest == tail && m.val == S.Some(S.Call(e, args, [])) by {
      hide G.Grammar.ParseArgs, G.Grammar.PostfixLoop;
    }
    hide G.Grammar.ParseCall, G.Grammar.ParseArgs;
  }

  lemma ParenStep(g: G.Grammar, ts: Tokens, tail: Tokens, tree: S.Expr)
    requires Yields(g.ParseExpr(ts), G.Cons(CLOSE, tail), tree)
    ensures Yields(g.ParsePrimary(G.Cons(OPEN, ts)), tail, tree)
  {
    assert Yields(g.ParseParen(G.Cons(OPEN, ts)), tail, tree) by {
      hide G.Grammar.ParseExpr, G.Grammar.ParseElements, G.Grammar.ParsePrimary;
    }
    hide G.Grammar.ParseParen, G.Grammar.ParseClosure, G.Grammar.ParseElements, G.Grammar.ParseIdent;
    hide G.Grammar.ParseExpr;
  }

  lemma MinusStep(g: G.Grammar, ts: Tokens, rest: Tokens, tree: S.Expr)
    requires Yields(g.ParseUnary(ts), rest, tree)
    ensures Yields(g.ParseUnary(G.Cons(MINUS_SIGN, ts)), rest, S.Unary("-", tree))
  {
    hide G.Grammar.ParseCast;
  }

  lemma UnaryFrom(g: G.Grammar, ts: Tokens, rest: Tokens, tree: S.Expr)
    requires ts.Type() != MINUS && ts.Type() != BANG && rest.Type() != AS && rest.Type() != CARET
    requires Yields(g.ParsePostfix(ts), rest, tree)
    ensures Yields(g.ParseUnary(ts), rest, tree)
  {
    hide G.Grammar.ParsePostfix, G.Grammar.ParseType;
  }

  lemma PowFrom(g: G.Grammar, ts: Tokens, rest: Tokens, tree: S.Expr)
    requires rest.Type() != CARET && Yields(g.ParseUnary(ts), rest, tree)
    ensures Yields(g.ParsePow(ts), rest, tree)
  {
    hide G.Grammar.ParseUnary;
  }

  lemma MulFrom(g: G.Grammar, ts: Tokens, rest: Tokens, tree: S.Expr)
    requires Yields(g.ParsePow(ts), rest, tree)
    ensures SameAs(g.ParseMul(ts), g.MulLoop(tree, rest))
  {
    hide G.Grammar.ParsePow, G.Grammar.MulLoop;
  }

  lemma MulMore(g: G.Grammar, op: Op, l: S.Expr, ts: Tokens, rest: Tokens, r: S.Expr)
    requires Prec(op) == 2 && Yields(g.ParsePow(ts), rest, r)
    ensures SameAs(g.MulLoop(l, G.Cons(OpTok(op), ts)), g.MulLoop(S.Binary(Spelling(op), l, r), rest))
  {
    hide G.Grammar.ParsePow;
  }

  lemma MulEnds(g: G.Grammar, l: S.Expr, tail: Tokens)
    requires AfterTerm(tail)
    ensures Yields(g.MulLoop(l, tail), tail, l)
  {
    hide G.Grammar.ParsePow;
  }

  lemma AddFrom(g: G.Grammar, ts: Tokens, rest: Tokens, tree: S.Expr)
    requires Yields(g.ParseMul(ts), rest, tree)
    ensures SameAs(g.ParseAdd(ts), g.AddLoop(tree, rest))
  {
    hide G.Grammar.ParseMul, G.Grammar.AddLoop;
  }

  lemma AddMore(g: G.Grammar, op: Op, l: S.Expr, ts: Tokens, rest: Tokens, r: S.Expr)
    requires Prec(op) == 1 && Yields(g.ParseMul(ts), rest, r)
    ensures SameAs(g.AddLoop(l, G.Cons(OpTok(op), ts)), g.AddLoop(S.Binary(Spelling(op), l, r), rest))
  {
    hide G.Grammar.ParseMul;
  }

  lemma AddEnds(g: G.Grammar, l: S.Expr, tail: Tokens)
    requires Closing(tail)
    ensures Yields(g.AddLoop(l, tail), tail, l)
  {
    hide G.Grammar.ParseMul;
  }

  lemma CmpFrom(g: G.Grammar, ts: Tokens, rest: Tokens, tree: S.Expr)
    requires Closing(rest) && Yields(g.ParseAdd(ts), rest, tree)
    ensures Yields(g.ParseCmp(ts), rest, tree)
  {
    hide G.Grammar.ParseAdd;
    assert Yields(g.ShiftLoop(tree, rest), rest, tree);
    assert Yields(g.ParseShift(ts), rest, tree);
  }

  lemma AndFrom(g: G.Grammar, ts: Tokens, rest: Tokens, tree: S.Expr)
    requires Closing(rest) && Yields(g.ParseCmp(ts), rest, tree)
    ensures Yields(g.ParseAnd(ts), rest, tree)
  {
    hide G.Grammar.ParseCmp;
    assert Yields(g.ParseEq(ts), rest, tree);
    assert Yields(g.AndLoop(tree, rest), rest, tree);
  }

  lemma RangeFrom(g: G.Grammar, ts: Tokens, rest: Tokens, tree: S.Expr)
    requires Closing(rest) && Yields(g.ParseAnd(ts), rest, tree)
    ensures Yields(g.ParseRange(ts), rest, tree)
  {
    hide G.Grammar.ParseAnd;
    assert Yields(g.OrLoop(tree, rest), rest, tree);
    assert Yields(g.ParseOr(ts), rest, tree);
  }

  lemma ExprFrom(g: G.Grammar, ts: Tokens, rest: Tokens, tree: S.Expr)
    requires Closing(rest) && Yields(g.ParseRange(ts), rest, tree)
    ensures Yields(g.ParseExpr(ts), rest, tree)
  {
    hide G.Grammar.ParseRange, G.Grammar.ParseType;
    assert Yields(g.PipeLoop(tree, rest), rest, tree);
    assert Yields(g.ParsePipe(ts), rest, tree);
  }

  predicate ReadsArgs(r: G.Parsed<seq<S.Arg>>, rest: Tokens, args: seq<S.Arg>) {
    r.rest == rest && r.val == S.Some(args)
  }

  lemma ArgsNone(g: G.Grammar, tail: Tokens)
    requires tail.Type() == RPAREN
    ensures ReadsArgs(g.ParseArgs(tail), tail, [])
  {
    hide G.Grammar.ParseExpr;
  }

  lemma ArgsLast(g: G.Grammar, ts: Tokens, tail: Tokens, tree: S.Expr)
    requires ts.Type() != RPAREN && ts.Next() != COLON && tail.Type() == RPAREN
    requires Yields(g.ParseExpr(ts), tail, tree)
    ensures ReadsArgs(g.ParseArgs(ts), tail, [S.Positional(tree)])
  {
    hide G.Grammar.ParseExpr;
    assert [S.Positional(tree)] + [] == [S.Positional(tree)];
    assert !g.IsNamedArg(ts);
  }

  lemma ArgsMore(g: G.Grammar, ts: Tokens, more: Tokens, tree: S.Expr, tail: Tokens, args: seq<S.Arg>)
    requires ts.Type() != RPAREN && ts.Next() != COLON
    requires Yields(g.ParseExpr(ts), G.Cons(COMMA_SIGN, more), tree)
    requires ReadsArgs(g.ParseArgs(more), tail, args)
    ensures ReadsArgs(g.ParseArgs(ts), tail, [S.Positional(tree)] + args)
  {
    hide G.Grammar.ParseExpr;
  }

  // ----- the heads of printed tokens -----

  lemma {:induction false} HeadType(e: Sym, tail: Tokens)
    requires WellNamed(e)
    ensures Line(e, tail).Cons? && Line(e, tail).Type() !in {RPAREN, COLON, BANG, EOF}
    ensures !MinusForm(e) && !e.Bin? ==> Line(e, tail).Type() != MINUS
    decreases e, 0
  {
    hide LineAll;
    match e
    case Name(_, parts) => NameHead(parts, tail);
    case Member(of, field) => WrappedHead(of, 3, G.Cons(DOT_SIGN, G.Cons(Word(field), tail)));
    case Apply(func, args) => NameHead(func, G.Cons(OPEN, LineAll(args, G.Cons(CLOSE, tail))));
    case Bin(op, left, right) =>
      WrappedHead(left, Prec(op), G.Cons(OpTok(op), LineWrapped(right, Prec(op) + 1, tail)));
    case _ =>
  }

  lemma {:induction false} WrappedHead(e: Sym, prec: nat, tail: Tokens)
    requires WellNamed(e)
    ensures LineWrapped(e, prec, tail).Cons? && LineWrapped(e, prec, tail).Type() !in {RPAREN, COLON, BANG, EOF}
    ensures !MinusForm(e) && (!e.Bin? || Wrapped(e, prec)) ==> LineWrapped(e, prec, tail).Type() != MINUS
    decreases e, 1
  {
    hide Line;
    if !Wrapped(e, prec) {
      HeadType(e, tail);
    }
  }

  lemma {:induction false} NextType(e: Sym, tail: Tokens)
    requires WellNamed(e) && tail.Type() != COLON
    ensures Line(e, tail).Next() != COLON
    decreases e, 0
  {
    hide LineAll;
    match e
    case Member(of, field) => WrappedNext(of, 3, G.Cons(DOT_SIGN, G.Cons(Word(field), tail)));
    case Neg(arg) => WrappedHead(arg, 3, tail);
    case Bin(op, left, right) =>
      WrappedNext(left, Prec(op), G.Cons(OpTok(op), LineWrapped(right, Prec(op) + 1, tail)));
    case _ =>
  }

  lemma {:induction false} WrappedNext(e: Sym, prec: nat, tail: Tokens)
    requires WellNamed(e) && tail.Type() != COLON
    ensures LineWrapped(e, prec, tail).Next() != COLON
    decreases e, 1
  {
    hide Line;
    if Wrapped(e, prec) {
      HeadType(e, G.Cons(CLOSE, tail));
    } else {
      NextType(e, tail);
    }
  }

  // ----- reading a printed expression back -----

  lemma {:induction false} ExprRead(g: G.Grammar, e: Sym, tail: Tokens)
    requires WellNamed(e) && Lexable(e) && Closing(tail)
    ensures Yields(g.ParseExpr(Line(e, tail)), tail, Read(e))
    decreases Size(e), 6
  {
    hide G.Grammar.ParseExpr, G.Grammar.ParseAdd, Line, Read;
    AddRead(g, e, tail);
    AddEnds(g, Read(e), tail);
    var ts := Line(e, tail);
    CmpFrom(g, ts, tail, Read(e));
    AndFrom(g, ts, tail, Read(e));
    RangeFrom(g, ts, tail, Read(e));
    ExprFrom(g, ts, tail, Read(e));
  }

  lemma {:induction false} AddRead(g: G.Grammar, e: Sym, tail: Tokens)
    requires WellNamed(e) && Lexable(e) && AfterTerm(tail)
    ensures SameAs(g.ParseAdd(Line(e, tail)), g.AddLoop(Read(e), tail))
    decreases Size(e), 5
  {
    hide G.Grammar.ParseAdd, G.Grammar.AddLoop, G.Grammar.ParseMul, G.Grammar.MulLoop, WellNamed, Lexable;
    if e.Bin? && Prec(e.op) == 1 {
      BinParts(e);
      var right := LineWrapped(e.right, 2, tail);
      AddRead(g, e.left, G.Cons(OpTok(e.op), right));
      MulRead(g, e.right, tail);
      MulEnds(g, Read(e.right), tail);
      AddMore(g, e.op, Read(e.left), right, tail, Read(e.right));
    } else {
      MulRead(g, e, tail);
      MulEnds(g, Read(e), tail);
      AddFrom(g, Line(e, tail), tail, Read(e));
    }
  }

  lemma BinParts(e: Sym)
    requires e.Bin? && WellNamed(e) && Lexable(e)
    ensures WellNamed(e.left) && Lexable(e.left) && WellNamed(e.right) && Lexable(e.right)
  {}

  function MulRank(e: Sym): nat {
    if Wrapped(e, 2) then 14 else 4
  }

  function AtomRank(e: Sym): nat {
    if Wrapped(e, 3) then 10 else 0
  }

  lemma {:induction false} MulRead(g: G.Grammar, e: Sym, tail: Tokens)
    requires WellNamed(e) && Lexable(e) && AfterFactor(tail)
    ensures SameAs(g.ParseMul(LineWrapped(e, 2, tail)), g.MulLoop(Read(e), tail))
    decreases Size(e), MulRank(e)
  {
    hide G.Grammar.ParseMul, G.Grammar.MulLoop, G.Grammar.ParsePow, WellNamed, Lexable;
    if e.Bin? && Prec(e.op) == 2 {
      BinParts(e);
      var right := LineWrapped(e.right, 3, tail);
      MulRead(g, e.left, G.Cons(OpTok(e.op), right));
      PowRead(g, e.right, tail);
      MulMore(g, e.op, Read(e.left), right, tail, Read(e.right));
    } else {
      PowRead(g, e, tail);
      MulFrom(g, LineWrapped(e, 3, tail), tail, Read(e));
    }
  }

  lemma {:induction false} PowRead(g: G.Grammar, e: Sym, tail: Tokens)
    requires WellNamed(e) && Lexable(e) && AfterFactor(tail)
    ensures Yields(g.ParsePow(LineWrapped(e, 3, tail)), tail, Read(e))
    decreases Size(e), 3 + AtomRank(e)
  {
    hide G.Grammar.ParseUnary, G.Grammar.ParsePow, LineWrapped, Read;
    UnaryRead(g, e, tail);
    PowFrom(g, LineWrapped(e, 3, tail), tail, Read(e));
  }

  lemma {:induction false} UnaryRead(g: G.Grammar, e: Sym, tail: Tokens)
    requires WellNamed(e) && Lexable(e) && AfterFactor(tail)
    ensures Yields(g.ParseUnary(LineWrapped(e, 3, tail)), tail, Read(e))
    decreases Size(e), 2 + AtomRank(e)
  {
    hide G.Grammar.ParseUnary, G.Grammar.ParsePostfix, G.Grammar.PostfixLoop, Line, WellNamed, Lexable;
    if MinusForm(e) {
      LineMinus(e, tail);
      StripLexable(e);
      UnaryRead(g, Strip(e), tail);
      MinusStep(g, LineWrapped(Strip(e), 3, tail), tail, Read(Strip(e)));
    } else {
      PostfixRead(g, e, tail);
      LoopEnds(g, Read(e), tail);
      WrappedHead(e, 3, tail);
      UnaryFrom(g, LineWrapped(e, 3, tail), tail, Read(e));
    }
  }

  lemma LiteralAtom(g: G.Grammar, e: Sym, t: Token, tail: Tokens)
    requires
      || (e.Flag? && t == if e.b then Token(TRUE, "true") else Token(FALSE, "false"))
      || (e.Str? && t == Token(STRING, e.s))
      || (e.Num? && 0 <= e.n && t == IntToken(e.n))
    ensures SameAs(g.ParsePostfix(Line(e, tail)), g.PostfixLoop(Read(e), tail))
  {
    hide G.Grammar.ParsePrimary, G.Grammar.ParsePostfix, G.Grammar.PostfixLoop;
    LiteralRead(g, t, tail, Read(e));
    PostfixFrom(g, G.Cons(t, tail), tail, Read(e));
    assert Line(e, tail) == G.Cons(t, tail);
  }

  lemma {:induction false} PostfixRead(g: G.Grammar, e: Sym, tail: Tokens)
    requires WellNamed(e) && Lexable(e) && AfterAtom(tail) && !MinusForm(e)
    ensures SameAs(g.ParsePostfix(LineWrapped(e, 3, tail)), g.PostfixLoop(Read(e), tail))
    decreases Size(e), 1 + AtomRank(e)
  {
    hide G.Grammar.ParsePrimary, G.Grammar.ParsePostfix, G.Grammar.PostfixLoop, G.Grammar.ParseExpr, LineAll, LineName;
    var ts := LineWrapped(e, 3, tail);
    match e
    case Flag(b) =>
      LiteralAtom(g, e, if b then Token(TRUE, "true") else Token(FALSE, "false"), tail);
    case Str(s) =>
      LiteralAtom(g, e, Token(STRING, s), tail);
    case Num(n) =>
      LiteralAtom(g, e, IntToken(n), tail);
    case Name(_, parts) =>
      IdentRead(g, parts, tail);
      assert Line(e, tail) == LineName(parts, tail);
      PostfixFrom(g, LineName(parts, tail), tail, Read(e));
    case Member(of, field) =>
      PostfixRead(g, of, G.Cons(DOT_SIGN, G.Cons(Word(field), tail)));
      MemberStep(g, Read(of), field, tail);
    case Apply(func, args) => ApplyRead(g, e, tail);
    case Bin(_, _, _) =>
      ExprRead(g, e, G.Cons(CLOSE, tail));
      ParenStep(g, Line(e, G.Cons(CLOSE, tail)), tail, Read(e));
      PostfixFrom(g, ts, tail, Read(e));
  }

  lemma {:induction false} ApplyRead(g: G.Grammar, e: Sym, tail: Tokens)
    requires e.Apply? && WellNamed(e) && Lexable(e) && AfterAtom(tail)
    ensures SameAs(g.ParsePostfix(Line(e, tail)), g.PostfixLoop(Read(e), tail))
    decreases Size(e), 0
  {
    hide G.Grammar.ParsePrimary, G.Grammar.ParsePostfix, G.Grammar.PostfixLoop, G.Grammar.ParseArgs, LineAll, LineName;
    var inside := LineAll(e.args, G.Cons(CLOSE, tail));
    IdentRead(g, e.func, G.Cons(OPEN, inside));
    PostfixFrom(g, Line(e, tail), G.Cons(OPEN, inside), S.Ident(Join(e.func)));
    ArgsRead(g, e.args, G.Cons(CLOSE, tail));
    CallStep(g, S.Ident(Join(e.func)), Positionals(Reads(e.args)), inside, tail);
  }

  lemma {:induction false} ArgsRead(g: G.Grammar, args: seq<Sym>, tail: Tokens)
    requires (forall a :: a in args ==> WellNamed(a) && Lexable(a)) && tail.Type() == RPAREN
    ensures ReadsArgs(g.ParseArgs(LineAll(args, tail)), tail, Positionals(Reads(args)))
    decreases Sizes(args), 20
  {
    hide G.Grammar.ParseExpr, G.Grammar.ParseArgs, Line, Read, WellNamed, Lexable;
    if |args| == 0 {
      ArgsNone(g, tail);
    } else {
      var a := args[0];
      assert a in args;
      var next := if |args| == 1 then tail else G.Cons(COMMA_SIGN, LineAll(args[1..], tail));
      HeadType(a, next);
      NextType(a, next);
      ExprRead(g, a, next);
      if |args| == 1 {
        assert args[1..] == [];
        ArgsLast(g, Line(a, tail), tail, Read(a));
        assert Positionals(Reads(args)) == [S.Positional(Read(a))];
      } else {
        ArgsRead(g, args[1..], tail);
        ArgsMore(g, Line(a, next), LineAll(args[1..], tail), Read(a), tail, Positionals(Reads(args[1..])));
      }
    }
  }
}
