/** The trees that the parser makes: from tokens that are spelled as their types say, only
    trees that can be written. */
module TreeOrigins {
  import opened Lexing
  import opened Syntax
  import opened Grammar
  import opened TreeTokens

  // ----- spelled tokens -----

  /** The text of an operator or of a type's name is the one its token type stands for. */
  predicate SpelledToken(t: Token) {
    t.Token? ==>
      && (EQUALS <= Rank(t.tt) <= PRODUCTS ==> OpType(t.text) == t.tt)
      && (t.tt in {MINUS, BANG} ==> UnaryType(t.text) == t.tt)
      && (t.tt in PRIMITIVES ==> IsPrimitive(t.text))
  }

  predicate Spelled(ts: Tokens) {
    ts.Cons? ==> SpelledToken(ts.head) && Spelled(ts.tail)
  }

  predicate SpelledRope(r: Rope) {
    match r
    case Empty => true
    case One(t) => SpelledToken(t)
    case Cat(a, b) => SpelledRope(a) && SpelledRope(b)
  }

  /** What was consumed and what is left. */
  predicate SpelledBoth<T>(r: Parsed<T>) {
    SpelledRope(r.consumed) && Spelled(r.rest)
  }

  lemma Pieces()
    ensures SpelledRope(Nil())
    ensures forall a: Rope, b: Rope {:trigger Join(a, b)} ::
        SpelledRope(Join(a, b)) <==> SpelledRope(a) && SpelledRope(b)
    ensures forall ts: Tokens {:trigger Head(ts)} :: ts.Cons? && Spelled(ts) ==>
        SpelledRope(Head(ts)) && Spelled(ts.tail) && SpelledToken(ts.head)
    ensures forall ts: Tokens {:trigger NonGt(ts.tail)} :: ts.Cons? ==>
        NonGt(ts) == NonGt(ts.tail) + if ts.Type() == GT then 0 else 1
    ensures forall ts: Tokens {:trigger Spelled(ts.tail)} :: ts.Cons? && Spelled(ts) ==> Spelled(ts.tail)
  {
    forall ts: Tokens | ts.Cons? && Spelled(ts)
      ensures SpelledRope(Head(ts)) && Spelled(ts.tail) && SpelledToken(ts.head)
    {
      assert Head(ts) == One(ts.head);
    }
  }

  lemma GtSpelled()
    ensures SpelledToken(Token(GT, ">"))
  {
    hide IsPrimitive, UnaryType;
  }

  lemma Gt(ts: Tokens)
    requires Spelled(ts)
    ensures SpelledBoth(ExpectGt(ts)) && (ExpectGt(ts).val.Some? ==> ts.Type() in {GT, SHR})
  {
    GtSpelled();
    hide SpelledToken;
  }

  lemma {:induction false} Back(r: Rope, ts: Tokens)
    requires SpelledRope(r) && Spelled(ts)
    ensures Spelled(Restore(r, ts))
    decreases r
  {
    if r.Cat? {
      Back(r.second, ts);
      Back(r.first, Restore(r.second, ts));
    }
  }

  lemma {:induction false} NameSpelled(ts: Tokens)
    requires Spelled(ts)
    ensures SpelledBoth(ParseName(ts))
    decreases ts
  {
    if ts.Type() == IDENT && ts.tail.Type() == COLONCOLON && ts.tail.Next() == IDENT {
      NameSpelled(ts.tail.tail);
    }
  }

  // ----- what is made at each level -----

  /** Before a `>`, what a level has read does not take it for an operator. */
  predicate LeavesGt(k: nat, e: Expr, rest: Tokens) {
    k <= SHIFTS && rest.Type() in {GT, SHR} ==>
      && (k <= PIPES ==> Closes(e))
      && (RANGES <= k <= COMPARES ==> Level(e) >= k && EndsCompared(e))
      && (k == SHIFTS ==> rest.Type() != SHR)
  }

  predicate Made(g: Grammar, k: nat, r: Parsed<Expr>) {
    SpelledBoth(r) && (r.val.Some? ==> Writable(g, r.val.value) && LeavesGt(k, r.val.value, r.rest))
  }

  predicate MadeType(g: Grammar, r: Parsed<Type>) {
    SpelledBoth(r) && (r.val.Some? ==> WritableType(g, r.val.value))
  }


  lemma SpelledHead(ts: Tokens)
    requires Spelled(ts) && ts.Cons?
    ensures SpelledToken(ts.head) && Spelled(ts.tail)
    ensures EQUALS <= Rank(ts.Type()) <= PRODUCTS ==> OpType(ts.head.Word()) == ts.Type()
    ensures ts.Type() in {MINUS, BANG} ==> UnaryType(ts.head.Word()) == ts.Type()
  {}

  /** The operators whose text the parser keeps. */
  lemma Kept(ts: Tokens)
    requires Spelled(ts) && SHIFTS <= Rank(ts.Type()) <= PRODUCTS
    ensures OpType(ts.head.Word()) != EOF
  {}

  lemma BinaryMade(g: Grammar, op: string, l: Expr, r: Expr)
    requires OpType(op) != EOF && Writable(g, l) && Writable(g, r)
    ensures Writable(g, Binary(op, l, r))
  {}

  lemma IndexedMade(g: Grammar, e: Expr, i: Expr)
    requires Writable(g, e) && Writable(g, i)
    ensures Writable(g, g.Indexed(e, i))
  {
    hide Writable;
    if i.Range? { SliceMade(g, e, i); } else { IndexMade(g, e, i); }
  }

  lemma SliceMade(g: Grammar, e: Expr, i: Expr)
    requires Writable(g, e) && i.Range? && Writable(g, i)
    ensures Writable(g, Slice(e, i.start, i.end))
  {}

  lemma IndexMade(g: Grammar, e: Expr, i: Expr)
    requires Writable(g, e) && Writable(g, i) && (i.Range? ==> e.Slice? || (e.Index? && !e.index.Range?))
    ensures Writable(g, Index(e, i))
  {}

  lemma ColumnMade(g: Grammar, e: Expr, i: Expr, j: Expr)
    requires Writable(g, e) && Writable(g, i) && Writable(g, j)
    ensures Writable(g, Index(g.Indexed(e, i), j))
  {
    hide Writable;
    IndexedMade(g, e, i);
    IndexMade(g, g.Indexed(e, i), j);
  }

  lemma MemberMade(g: Grammar, e: Expr, name: string)
    requires Writable(g, e)
    ensures Writable(g, Field(e, name))
  {}

  lemma MethodMade(g: Grammar, e: Expr, name: string, args: seq<Arg>)
    requires Writable(g, e) && forall a :: a in args ==> Writable(g, a.value)
    ensures Writable(g, MethodOf(e, name, args))
  {}

  lemma PrimitiveSpelled(t: Token)
    requires SpelledToken(t) && t.Type() in PRIMITIVES
    ensures t.Token? && IsPrimitive(t.text)
  {}

  lemma EncForm(g: Grammar, ts: Tokens)
    requires ts.Type() == ENC && g.ParseEnc(ts).val.Some?
    ensures StartsAsType(g.ParseEnc(ts).val.value)
  {
    hide Grammar.ParseType, Grammar.ParseExpr, ParseName, ExpectGt, Join, Head, Threads, Grammar.ParseCols;
  }

  lemma VecForm(g: Grammar, ts: Tokens)
    requires ts.Type() == VEC && g.ParseVec(ts).val.Some?
    ensures StartsAsType(g.ParseVec(ts).val.value)
  {
    hide Grammar.ParseType, Grammar.ParseExpr, ParseName, ExpectGt, Join, Head, Threads, Grammar.ParseCols;
  }

  lemma MatForm(g: Grammar, ts: Tokens)
    requires ts.Type() == MAT && g.ParseMat(ts).val.Some?
    ensures StartsAsType(g.ParseMat(ts).val.value)
  {
    hide Grammar.ParseType, Grammar.ParseExpr, ParseName, ExpectGt, Join, Head, Threads, Grammar.ParseCols;
  }

  lemma NameForm(g: Grammar, ts: Tokens)
    requires ts.Type() == IDENT && g.ParseNamed(ts).val.Some?
    ensures StartsAsType(g.ParseNamed(ts).val.value)
  {
    hide Grammar.ParseType, Grammar.ParseExpr, ParseName, ExpectGt, Join, Head, Threads, Grammar.ParseCols;
  }

  lemma StartsAs(g: Grammar, ts: Tokens)
    requires ts.Type() in TYPE_STARTS && g.ParseType(ts).val.Some?
    ensures StartsAsType(g.ParseType(ts).val.value)
  {
    hide Grammar.ParseCols, Grammar.ParseExpr, ParseName, ExpectGt, Join, Head, Threads, Grammar.ParseEnc;
    hide Grammar.ParseVec, Grammar.ParseMat, Grammar.ParseNamed;
    if ts.Type() == ENC { EncForm(g, ts); }
    else if ts.Type() == VEC { VecForm(g, ts); }
    else if ts.Type() == MAT { MatForm(g, ts); }
    else if ts.Type() == IDENT { NameForm(g, ts); }
  }

  // ----- types -----

  lemma {:induction false} OfType(g: Grammar, ts: Tokens)
    requires Spelled(ts)
    ensures MadeType(g, g.ParseType(ts))
    decreases NonGt(ts), 1
  {
    Pieces();
    hide Spelled, SpelledRope, SpelledToken, Join, Head, Nil, NonGt, Used, FloatIn, FloatLeft, Weight, Expr.HasFloat;
    hide Type.HasFloat, ArgsFloat, ExprsFloat, TypesFloat, InitsFloat, ParamsFloat, Grammar.ParseEnc, Grammar.ParseVec;
    hide Grammar.ParseMat, Grammar.ParseFn, Grammar.ParseTuple, Grammar.ParseNamed, Writable;
    if ts.Cons? {
      var tt := ts.Type();
      if tt in PRIMITIVES { assert SpelledToken(ts.head) by { SpelledHead(ts); } PrimitiveSpelled(ts.head); }
      else if tt == ENC { OfEnc(g, ts); }
      else if tt == VEC { OfVec(g, ts); }
      else if tt == MAT { OfMat(g, ts); }
      else if tt == FN { OfFn(g, ts); }
      else if tt == LPAREN { OfTuple(g, ts); }
      else if tt == IDENT { OfNamed(g, ts); }
    }
  }

  lemma {:induction false} OfEnc(g: Grammar, ts: Tokens)
    requires Spelled(ts) && ts.Type() == ENC
    ensures MadeType(g, g.ParseEnc(ts))
    decreases NonGt(ts), 0
  {
    Pieces();
    hide Spelled, SpelledRope, SpelledToken, Join, Head, Nil, NonGt, Used, FloatIn, FloatLeft, Weight, Expr.HasFloat;
    hide Type.HasFloat, ArgsFloat, ExprsFloat, TypesFloat, InitsFloat, ParamsFloat, Grammar.ParseType, Writable;
    hide ExpectGt;
    var lt := Expect(LT, ts.tail);
    if lt.val.Some? {
      OfType(g, lt.rest);
      if g.ParseType(lt.rest).val.Some? { Gt(g.ParseType(lt.rest).rest); }
    }
  }

  lemma {:induction false} OfVec(g: Grammar, ts: Tokens)
    requires Spelled(ts) && ts.Type() == VEC
    ensures MadeType(g, g.ParseVec(ts))
    decreases NonGt(ts), 0
  {
    Pieces();
    hide Spelled, SpelledRope, SpelledToken, Join, Head, Nil, NonGt, Used, FloatIn, FloatLeft, Weight, Expr.HasFloat;
    hide Type.HasFloat, ArgsFloat, ExprsFloat, TypesFloat, InitsFloat, ParamsFloat, Grammar.ParseType;
    hide Grammar.ParseExpr, Writable, ExpectGt, Closes;
    var lt := Expect(LT, ts.tail);
    if lt.val.Some? {
      OfType(g, lt.rest);
      var elem := g.ParseType(lt.rest);
      if elem.val.Some? {
        if elem.rest.Type() == COMMA {
          OfExpr(g, elem.rest.tail);
          var size := g.ParseExpr(elem.rest.tail);
          if size.val.Some? { Gt(size.rest); }
        } else {
          Gt(elem.rest);
        }
      }
    }
  }

  lemma {:induction false} OfMat(g: Grammar, ts: Tokens)
    requires Spelled(ts) && ts.Type() == MAT
    ensures MadeType(g, g.ParseMat(ts))
    decreases NonGt(ts), 0
  {
    Pieces();
    hide Spelled, SpelledRope, SpelledToken, Join, Head, Nil, NonGt, Used, FloatIn, FloatLeft, Weight, Expr.HasFloat;
    hide Type.HasFloat, ArgsFloat, ExprsFloat, TypesFloat, InitsFloat, ParamsFloat, Grammar.ParseType;
    hide Grammar.ParseMatSize, Writable, ExpectGt;
    var lt := Expect(LT, ts.tail);
    if lt.val.Some? {
      OfType(g, lt.rest);
      var elem := g.ParseType(lt.rest);
      if elem.val.Some? {
        Gt(elem.rest);
        var gt := ExpectGt(elem.rest);
        if gt.val.Some? && gt.rest.Type() == LBRACKET { OfMatSize(g, elem.val.value, gt.rest); }
      }
    }
  }

  lemma {:induction false} OfMatSize(g: Grammar, elem: Type, ts: Tokens)
    requires Spelled(ts) && ts.Type() == LBRACKET && WritableType(g, elem)
    ensures MadeType(g, g.ParseMatSize(elem, ts))
    decreases NonGt(ts), 0
  {
    Pieces();
    hide Spelled, SpelledRope, SpelledToken, Join, Head, Nil, NonGt, Used, FloatIn, FloatLeft, Weight, Expr.HasFloat;
    hide Type.HasFloat, ArgsFloat, ExprsFloat, TypesFloat, InitsFloat, ParamsFloat, Grammar.ParseExpr;
    hide Grammar.ParseCols, Writable, LeavesGt;
    OfExpr(g, ts.tail);
    var rows := g.ParseExpr(ts.tail);
    if rows.val.Some? {
      var comma := Expect(COMMA, rows.rest);
      if comma.val.Some? { OfCols(g, comma.rest); }
    }
  }

  lemma {:induction false} OfCols(g: Grammar, ts: Tokens)
    requires Spelled(ts)
    ensures Made(g, PRIMARIES, g.ParseCols(ts))
    decreases NonGt(ts), 20
  {
    Pieces();
    hide Spelled, SpelledRope, SpelledToken, Join, Head, Nil, NonGt, Used, FloatIn, FloatLeft, Weight, Expr.HasFloat;
    hide Type.HasFloat, ArgsFloat, ExprsFloat, TypesFloat, InitsFloat, ParamsFloat, Grammar.ParseExpr, Writable;
    OfExpr(g, ts);
  }

  lemma {:induction false} OfFn(g: Grammar, ts: Tokens)
    requires Spelled(ts) && ts.Type() == FN
    ensures MadeType(g, g.ParseFn(ts))
    decreases NonGt(ts), 0
  {
    Pieces();
    hide Spelled, SpelledRope, SpelledToken, Join, Head, Nil, NonGt, Used, FloatIn, FloatLeft, Weight, Expr.HasFloat;
    hide Type.HasFloat, ArgsFloat, ExprsFloat, TypesFloat, InitsFloat, ParamsFloat, Grammar.ParseType;
    hide Grammar.ParseTypes, Writable;
    var lp := Expect(LPAREN, ts.tail);
    if lp.val.Some? {
      OfTypes(g, lp.rest);
      var params := g.ParseTypes(lp.rest);
      if params.val.Some? {
        var rp := Expect(RPAREN, params.rest);
        if rp.val.Some? {
          var arrow := Expect(ARROW, rp.rest);
          if arrow.val.Some? { OfType(g, arrow.rest); }
        }
      }
    }
  }

  lemma {:induction false} OfTuple(g: Grammar, ts: Tokens)
    requires Spelled(ts) && ts.Type() == LPAREN
    ensures MadeType(g, g.ParseTuple(ts))
    decreases NonGt(ts), 0
  {
    Pieces();
    hide Spelled, SpelledRope, SpelledToken, Join, Head, Nil, NonGt, Used, FloatIn, FloatLeft, Weight, Expr.HasFloat;
    hide Type.HasFloat, ArgsFloat, ExprsFloat, TypesFloat, InitsFloat, ParamsFloat, Grammar.ParseTypes, Writable;
    OfTypes(g, ts.tail);
  }

  lemma {:induction false} OfNamed(g: Grammar, ts: Tokens)
    requires Spelled(ts) && ts.Type() == IDENT
    ensures MadeType(g, g.ParseNamed(ts))
    decreases NonGt(ts), 0
  {
    Pieces();
    hide Spelled, SpelledRope, SpelledToken, Join, Head, Nil, NonGt, Used, FloatIn, FloatLeft, Weight, Expr.HasFloat;
    hide Type.HasFloat, ArgsFloat, ExprsFloat, TypesFloat, InitsFloat, ParamsFloat, ParseName, Writable;
    NameSpelled(ts);
  }

  lemma {:induction false} OfTypes(g: Grammar, ts: Tokens)
    requires Spelled(ts)
    ensures SpelledBoth(g.ParseTypes(ts))
    ensures g.ParseTypes(ts).val.Some? ==> forall t :: t in g.ParseTypes(ts).val.value ==> WritableType(g, t)
    decreases NonGt(ts), 20
  {
    Pieces();
    hide Spelled, SpelledRope, SpelledToken, Join, Head, Nil, NonGt, Used, FloatIn, FloatLeft, Weight, Expr.HasFloat;
    hide Type.HasFloat, ArgsFloat, ExprsFloat, TypesFloat, InitsFloat, ParamsFloat, Grammar.ParseType, WritableType;
    if ts.Type() != RPAREN {
      OfType(g, ts);
      var t := g.ParseType(ts);
      if t.val.Some? && t.rest.Type() == COMMA { OfTypes(g, t.rest.tail); }
    }
  }

  // ----- expressions -----

  lemma {:induction false} OfExpr(g: Grammar, ts: Tokens)
    requires Spelled(ts)
    ensures Made(g, ANY, g.ParseExpr(ts))
    decreases NonGt(ts), 19
  {
    Pieces();
    hide Spelled, SpelledRope, SpelledToken, Join, Head, Nil, NonGt, Used, FloatIn, FloatLeft, Weight, Expr.HasFloat;
    hide Type.HasFloat, ArgsFloat, ExprsFloat, TypesFloat, InitsFloat, ParamsFloat, Grammar.ParsePipe, Writable;
    hide Closes;
    OfPipe(g, ts);
  }

  lemma {:induction false} OfPipe(g: Grammar, ts: Tokens)
    requires Spelled(ts)
    ensures Made(g, PIPES, g.ParsePipe(ts))
    decreases NonGt(ts), 18
  {
    Pieces();
    hide Spelled, SpelledRope, SpelledToken, Join, Head, Nil, NonGt, Used, FloatIn, FloatLeft, Weight, Expr.HasFloat;
    hide Type.HasFloat, ArgsFloat, ExprsFloat, TypesFloat, InitsFloat, ParamsFloat, Grammar.ParseRange;
    hide Grammar.PipeLoop, Writable, EndsCompared;
    OfRange(g, ts);
    var l := g.ParseRange(ts);
    if l.val.Some? { OnPipe(g, l.val.value, l.rest); }
  }

  lemma {:induction false} OnPipe(g: Grammar, left: Expr, ts: Tokens)
    requires Spelled(ts) && Writable(g, left) && LeavesGt(PIPES, left, ts)
    ensures Made(g, PIPES, g.PipeLoop(left, ts))
    decreases NonGt(ts), 0
  {
    Pieces();
    hide Spelled, SpelledRope, SpelledToken, Join, Head, Nil, NonGt, Used, FloatIn, FloatLeft, Weight, Expr.HasFloat;
    hide Type.HasFloat, ArgsFloat, ExprsFloat, TypesFloat, InitsFloat, ParamsFloat, Grammar.ParseRange;
    hide Grammar.ParseType;
    if ts.Type() == PIPE_OP {
      if ts.tail.Type() == AS {
        OfType(g, ts.tail.tail);
        var t := g.ParseType(ts.tail.tail);
        if t.val.Some? { OnPipe(g, Cast(left, t.val.value), t.rest); }
      } else {
        OfRange(g, ts.tail);
        var right := g.ParseRange(ts.tail);
        if right.val.Some? { OnPipe(g, Pipe(left, right.val.value), right.rest); }
      }
    }
  }

  lemma {:induction false} OfRange(g: Grammar, ts: Tokens)
    requires Spelled(ts)
    ensures Made(g, RANGES, g.ParseRange(ts))
    decreases NonGt(ts), 17
  {
    Pieces();
    hide Spelled, SpelledRope, SpelledToken, Join, Head, Nil, NonGt, Used, FloatIn, FloatLeft, Weight, Expr.HasFloat;
    hide Type.HasFloat, ArgsFloat, ExprsFloat, TypesFloat, InitsFloat, ParamsFloat, Grammar.ParseOr;
    OfOr(g, ts);
    var l := g.ParseOr(ts);
    if l.val.Some? && (l.rest.Type() == DOTDOT || l.rest.Type() == DOTDOTEQ) {
      SpelledHead(l.rest);
      OfOr(g, l.rest.tail);
      
    }
  }

  lemma {:induction false} OfOr(g: Grammar, ts: Tokens)
    requires Spelled(ts)
    ensures Made(g, ORS, g.ParseOr(ts))
    decreases NonGt(ts), 16
  {
    Pieces();
    hide Spelled, SpelledRope, SpelledToken, Join, Head, Nil, NonGt, Used, FloatIn, FloatLeft, Weight, Expr.HasFloat;
    hide Type.HasFloat, ArgsFloat, ExprsFloat, TypesFloat, InitsFloat, ParamsFloat, Grammar.ParseAnd, Grammar.OrLoop;
    hide Writable, EndsCompared;
    OfAnd(g, ts);
    var l := g.ParseAnd(ts);
    if l.val.Some? { OnOr(g, l.val.value, l.rest); }
  }

  lemma {:induction false} OnOr(g: Grammar, left: Expr, ts: Tokens)
    requires Spelled(ts) && Writable(g, left) && LeavesGt(ORS, left, ts)
    ensures Made(g, ORS, g.OrLoop(left, ts))
    decreases NonGt(ts), 0
  {
    Pieces();
    hide Spelled, SpelledRope, SpelledToken, Join, Head, Nil, NonGt, Used, FloatIn, FloatLeft, Weight, Expr.HasFloat;
    hide Type.HasFloat, ArgsFloat, ExprsFloat, TypesFloat, InitsFloat, ParamsFloat, Grammar.ParseAnd, Writable;
    if ts.Type() == OR {
      OfAnd(g, ts.tail);
      var right := g.ParseAnd(ts.tail);
      if right.val.Some? {
        BinaryMade(g, "||", left, right.val.value);
        OnOr(g, Binary("||", left, right.val.value), right.rest);
      }
    }
  }

  lemma {:induction false} OfAnd(g: Grammar, ts: Tokens)
    requires Spelled(ts)
    ensures Made(g, ANDS, g.ParseAnd(ts))
    decreases NonGt(ts), 15
  {
    Pieces();
    hide Spelled, SpelledRope, SpelledToken, Join, Head, Nil, NonGt, Used, FloatIn, FloatLeft, Weight, Expr.HasFloat;
    hide Type.HasFloat, ArgsFloat, ExprsFloat, TypesFloat, InitsFloat, ParamsFloat, Grammar.ParseEq, Grammar.AndLoop;
    hide Writable, EndsCompared;
    OfEq(g, ts);
    var l := g.ParseEq(ts);
    if l.val.Some? { OnAnd(g, l.val.value, l.rest); }
  }

  lemma {:induction false} OnAnd(g: Grammar, left: Expr, ts: Tokens)
    requires Spelled(ts) && Writable(g, left) && LeavesGt(ANDS, left, ts)
    ensures Made(g, ANDS, g.AndLoop(left, ts))
    decreases NonGt(ts), 0
  {
    Pieces();
    hide Spelled, SpelledRope, SpelledToken, Join, Head, Nil, NonGt, Used, FloatIn, FloatLeft, Weight, Expr.HasFloat;
    hide Type.HasFloat, ArgsFloat, ExprsFloat, TypesFloat, InitsFloat, ParamsFloat, Grammar.ParseEq, Writable;
    if ts.Type() == AND {
      OfEq(g, ts.tail);
      var right := g.ParseEq(ts.tail);
      if right.val.Some? {
        BinaryMade(g, "&&", left, right.val.value);
        OnAnd(g, Binary("&&", left, right.val.value), right.rest);
      }
    }
  }

  lemma {:induction false} OfEq(g: Grammar, ts: Tokens)
    requires Spelled(ts)
    ensures Made(g, EQUALS, g.ParseEq(ts))
    decreases NonGt(ts), 14
  {
    Pieces();
    hide Spelled, SpelledRope, SpelledToken, Join, Head, Nil, NonGt, Used, FloatIn, FloatLeft, Weight, Expr.HasFloat;
    hide Type.HasFloat, ArgsFloat, ExprsFloat, TypesFloat, InitsFloat, ParamsFloat, Grammar.ParseCmp, Writable;
    OfCmp(g, ts);
    var l := g.ParseCmp(ts);
    if l.val.Some? && l.rest.Type() in {EQ_EQ, BANG_EQ, TILDE_EQ} {
      SpelledHead(l.rest);
      OfCmp(g, l.rest.tail);
      var right := g.ParseCmp(l.rest.tail);
      if right.val.Some? { BinaryMade(g, l.rest.head.Word(), l.val.value, right.val.value); }
    }
  }

  lemma {:induction false} OfCmp(g: Grammar, ts: Tokens)
    requires Spelled(ts)
    ensures Made(g, COMPARES, g.ParseCmp(ts))
    decreases NonGt(ts), 13
  {
    Pieces();
    hide Spelled, SpelledRope, SpelledToken, Join, Head, Nil, NonGt, Used, FloatIn, FloatLeft, Weight, Expr.HasFloat;
    hide Type.HasFloat, ArgsFloat, ExprsFloat, TypesFloat, InitsFloat, ParamsFloat, Grammar.ParseShift;
    hide Grammar.ParseAdd, Writable;
    OfShift(g, ts);
    var l := g.ParseShift(ts);
    if l.val.Some? && l.rest.Type() in {LT, GT, LT_EQ, GT_EQ} {
      SpelledHead(l.rest);
      OfAdd(g, l.rest.tail);
      var right := g.ParseAdd(l.rest.tail);
      if right.val.Some? { BinaryMade(g, l.rest.head.Word(), l.val.value, right.val.value); }
    }
  }

  lemma {:induction false} OfShift(g: Grammar, ts: Tokens)
    requires Spelled(ts)
    ensures Made(g, SHIFTS, g.ParseShift(ts))
    decreases NonGt(ts), 12
  {
    Pieces();
    hide Spelled, SpelledRope, SpelledToken, Join, Head, Nil, NonGt, Used, FloatIn, FloatLeft, Weight, Expr.HasFloat;
    hide Type.HasFloat, ArgsFloat, ExprsFloat, TypesFloat, InitsFloat, ParamsFloat, Grammar.ParseAdd;
    hide Grammar.ShiftLoop, Writable, EndsCompared;
    OfAdd(g, ts);
    var l := g.ParseAdd(ts);
    if l.val.Some? { OnShift(g, l.val.value, l.rest); }
  }

  lemma {:induction false} OnShift(g: Grammar, left: Expr, ts: Tokens)
    requires Spelled(ts) && Writable(g, left)
    ensures Made(g, SHIFTS, g.ShiftLoop(left, ts))
    decreases NonGt(ts), 0
  {
    Pieces();
    hide Spelled, SpelledRope, SpelledToken, Join, Head, Nil, NonGt, Used, FloatIn, FloatLeft, Weight, Expr.HasFloat;
    hide Type.HasFloat, ArgsFloat, ExprsFloat, TypesFloat, InitsFloat, ParamsFloat, Grammar.ParseAdd, Writable, Closes;
    hide EndsCompared, Level, OpType;
    if ts.Type() in {SHL, SHR} {
      Kept(ts);
      OfAdd(g, ts.tail);
      var right := g.ParseAdd(ts.tail);
      if right.val.Some? {
        BinaryMade(g, ts.head.Word(), left, right.val.value);
        OnShift(g, Binary(ts.head.Word(), left, right.val.value), right.rest);
      }
    }
  }

  lemma {:induction false} OfAdd(g: Grammar, ts: Tokens)
    requires Spelled(ts)
    ensures Made(g, SUMS, g.ParseAdd(ts))
    decreases NonGt(ts), 11
  {
    Pieces();
    hide Spelled, SpelledRope, SpelledToken, Join, Head, Nil, NonGt, Used, FloatIn, FloatLeft, Weight, Expr.HasFloat;
    hide Type.HasFloat, ArgsFloat, ExprsFloat, TypesFloat, InitsFloat, ParamsFloat, Grammar.ParseMul, Grammar.AddLoop;
    hide Writable, EndsCompared;
    OfMul(g, ts);
    var l := g.ParseMul(ts);
    if l.val.Some? { OnAdd(g, l.val.value, l.rest); }
  }

  lemma {:induction false} OnAdd(g: Grammar, left: Expr, ts: Tokens)
    requires Spelled(ts) && Writable(g, left) && LeavesGt(SUMS, left, ts)
    ensures Made(g, SUMS, g.AddLoop(left, ts))
    decreases NonGt(ts), 0
  {
    Pieces();
    hide Spelled, SpelledRope, SpelledToken, Join, Head, Nil, NonGt, Used, FloatIn, FloatLeft, Weight, Expr.HasFloat;
    hide Type.HasFloat, ArgsFloat, ExprsFloat, TypesFloat, InitsFloat, ParamsFloat, Grammar.ParseMul, Writable, Closes;
    hide EndsCompared, Level, OpType;
    if ts.Type() in {PLUS, MINUS} {
      Kept(ts);
      OfMul(g, ts.tail);
      var right := g.ParseMul(ts.tail);
      if right.val.Some? {
        BinaryMade(g, ts.head.Word(), left, right.val.value);
        OnAdd(g, Binary(ts.head.Word(), left, right.val.value), right.rest);
      }
    }
  }

  lemma {:induction false} OfMul(g: Grammar, ts: Tokens)
    requires Spelled(ts)
    ensures Made(g, PRODUCTS, g.ParseMul(ts))
    decreases NonGt(ts), 10
  {
    Pieces();
    hide Spelled, SpelledRope, SpelledToken, Join, Head, Nil, NonGt, Used, FloatIn, FloatLeft, Weight, Expr.HasFloat;
    hide Type.HasFloat, ArgsFloat, ExprsFloat, TypesFloat, InitsFloat, ParamsFloat, Grammar.ParsePow, Grammar.MulLoop;
    hide Writable, EndsCompared;
    OfPow(g, ts);
    var l := g.ParsePow(ts);
    if l.val.Some? { OnMul(g, l.val.value, l.rest); }
  }

  lemma {:induction false} OnMul(g: Grammar, left: Expr, ts: Tokens)
    requires Spelled(ts) && Writable(g, left) && LeavesGt(PRODUCTS, left, ts)
    ensures Made(g, PRODUCTS, g.MulLoop(left, ts))
    decreases NonGt(ts), 0
  {
    Pieces();
    hide Spelled, SpelledRope, SpelledToken, Join, Head, Nil, NonGt, Used, FloatIn, FloatLeft, Weight, Expr.HasFloat;
    hide Type.HasFloat, ArgsFloat, ExprsFloat, TypesFloat, InitsFloat, ParamsFloat, Grammar.ParsePow, Writable, Closes;
    hide EndsCompared, Level, OpType;
    if ts.Type() in {STAR, SLASH, PERCENT, STAR_NORELIN} {
      Kept(ts);
      OfPow(g, ts.tail);
      var right := g.ParsePow(ts.tail);
      if right.val.Some? {
        BinaryMade(g, ts.head.Word(), left, right.val.value);
        OnMul(g, Binary(ts.head.Word(), left, right.val.value), right.rest);
      }
    }
  }

  lemma {:induction false} OfPow(g: Grammar, ts: Tokens)
    requires Spelled(ts)
    ensures Made(g, POWERS, g.ParsePow(ts))
    decreases NonGt(ts), 9
  {
    Pieces();
    hide Spelled, SpelledRope, SpelledToken, Join, Head, Nil, NonGt, Used, FloatIn, FloatLeft, Weight, Expr.HasFloat;
    hide Type.HasFloat, ArgsFloat, ExprsFloat, TypesFloat, InitsFloat, ParamsFloat, Grammar.ParseUnary;
    OfUnary(g, ts);
    var base := g.ParseUnary(ts);
    if base.val.Some? && base.rest.Type() == CARET { OfPow(g, base.rest.tail); }
  }

  lemma {:induction false} OfUnary(g: Grammar, ts: Tokens)
    requires Spelled(ts)
    ensures Made(g, UNARIES, g.ParseUnary(ts))
    decreases NonGt(ts), 8
  {
    Pieces();
    hide Spelled, SpelledRope, SpelledToken, Join, Head, Nil, NonGt, Used, FloatIn, FloatLeft, Weight, Expr.HasFloat;
    hide Type.HasFloat, ArgsFloat, ExprsFloat, TypesFloat, InitsFloat, ParamsFloat, Grammar.ParseCast;
    if ts.Type() == MINUS || ts.Type() == BANG {
      SpelledHead(ts);
      OfUnary(g, ts.tail);
    } else {
      OfCast(g, ts);
    }
  }

  lemma {:induction false} OfCast(g: Grammar, ts: Tokens)
    requires Spelled(ts)
    ensures Made(g, CASTS, g.ParseCast(ts))
    decreases NonGt(ts), 7
  {
    Pieces();
    hide Spelled, SpelledRope, SpelledToken, Join, Head, Nil, NonGt, Used, FloatIn, FloatLeft, Weight, Expr.HasFloat;
    hide Type.HasFloat, ArgsFloat, ExprsFloat, TypesFloat, InitsFloat, ParamsFloat, Grammar.ParsePostfix;
    hide Grammar.ParseType;
    OfPostfix(g, ts);
    var e := g.ParsePostfix(ts);
    if e.val.Some? && e.rest.Type() == AS { OfType(g, e.rest.tail); }
  }

  // ----- postfix forms -----

  lemma {:induction false} OfFish(g: Grammar, ts: Tokens)
    requires Spelled(ts) && ts.Type() == LT
    ensures var f := g.TryTurbofish(ts);
      && SpelledRope(f.consumed) && Spelled(f.rest)
      && (f.arg.Some? ==> WritableType(g, f.arg.value) && StartsAsType(f.arg.value))
    decreases NonGt(ts), 0
  {
    Pieces();
    hide Spelled, SpelledRope, SpelledToken, Join, Head, Nil, NonGt, Used, FloatIn, FloatLeft, Weight, Expr.HasFloat;
    hide Type.HasFloat, ArgsFloat, ExprsFloat, TypesFloat, InitsFloat, ParamsFloat, Grammar.ParseType, ExpectGt;
    hide Restore, WritableType;
    if ts.tail.Type() in TYPE_STARTS {
      OfType(g, ts.tail);
      var t := g.ParseType(ts.tail);
      if t.val.Some? { StartsAs(g, ts.tail); }
      var c := Join(Head(ts), t.consumed);
      Gt(t.rest);
      var gt := ExpectGt(t.rest);
      Back(c, t.rest);
      Back(Join(c, gt.consumed), gt.rest);
    }
  }

  lemma {:induction false} OfPostfix(g: Grammar, ts: Tokens)
    requires Spelled(ts)
    ensures Made(g, POSTFIXES, g.ParsePostfix(ts))
    decreases NonGt(ts), 6
  {
    Pieces();
    hide Spelled, SpelledRope, SpelledToken, Join, Head, Nil, NonGt, Used, FloatIn, FloatLeft, Weight, Expr.HasFloat;
    hide Type.HasFloat, ArgsFloat, ExprsFloat, TypesFloat, InitsFloat, ParamsFloat, Grammar.ParsePrimary;
    hide Grammar.PostfixLoop, Writable;
    OfPrimary(g, ts);
    var e := g.ParsePrimary(ts);
    if e.val.Some? { OnPostfix(g, e.val.value, e.rest); }
  }

  lemma {:induction false} OnPostfix(g: Grammar, e: Expr, ts: Tokens)
    requires Spelled(ts) && Writable(g, e)
    ensures Made(g, POSTFIXES, g.PostfixLoop(e, ts))
    decreases NonGt(ts), 4
  {
    Pieces();
    hide Spelled, SpelledRope, SpelledToken, Join, Head, Nil, NonGt, Used, FloatIn, FloatLeft, Weight, Expr.HasFloat;
    hide Type.HasFloat, ArgsFloat, ExprsFloat, TypesFloat, InitsFloat, ParamsFloat, Grammar.ParseMember;
    hide Grammar.ParseIndex, Grammar.ParseCall, Grammar.TryTurbofish, Writable, WritableType;
    if ts.Type() == DOT {
      OfMember(g, e, ts);
      var m := g.ParseMember(e, ts);
      if m.val.Some? { OnPostfix(g, m.val.value, m.rest); }
    } else if ts.Type() == LBRACKET {
      OfIndex(g, e, ts);
      var m := g.ParseIndex(e, ts);
      if m.val.Some? { OnPostfix(g, m.val.value, m.rest); }
    } else if ts.Type() == LPAREN {
      OfCall(g, e, [], ts);
      var m := g.ParseCall(e, [], ts);
      if m.val.Some? { OnPostfix(g, m.val.value, m.rest); }
    } else if ts.Type() == LT && e.Ident? {
      OfFish(g, ts);
      var f := g.TryTurbofish(ts);
      if f.arg.Some? {
        var types := AddType(f.arg.value, []);
        OfCall(g, e, types, f.rest);
        var m := g.ParseCall(e, types, f.rest);
        if m.val.Some? { OnPostfix(g, m.val.value, m.rest); }
      }
    }
  }

  lemma {:induction false} OfMember(g: Grammar, e: Expr, ts: Tokens)
    requires Spelled(ts) && ts.Type() == DOT && Writable(g, e)
    ensures Made(g, POSTFIXES, g.ParseMember(e, ts))
    decreases NonGt(ts), 3
  {
    Pieces();
    hide Spelled, SpelledRope, SpelledToken, Join, Head, Nil, NonGt, Used, FloatIn, FloatLeft, Weight, Expr.HasFloat;
    hide Type.HasFloat, ArgsFloat, ExprsFloat, TypesFloat, InitsFloat, ParamsFloat, Grammar.ParseArgs, Closes;
    hide EndsCompared, Level, Writable, MethodOf;
    var name := Expect(IDENT, ts.tail);
    if name.val.Some? {
      var f := name.val.value.text;
      MemberMade(g, e, f);
      if name.rest.Type() == LPAREN {
        OfArgs(g, name.rest.tail);
        var args := g.ParseArgs(name.rest.tail);
        if args.val.Some? { MethodMade(g, e, f, args.val.value); }
      }
    }
  }

  lemma {:induction false} OfCall(g: Grammar, e: Expr, types: seq<Type>, ts: Tokens)
    requires Spelled(ts) && ts.Type() == LPAREN && Writable(g, e) && |types| <= 1
    requires |types| == 1 ==> e.Ident? && StartsAsType(types[0]) && WritableType(g, types[0])
    ensures Made(g, POSTFIXES, g.ParseCall(e, types, ts))
    decreases NonGt(ts), 3
  {
    Pieces();
    hide Spelled, SpelledRope, SpelledToken, Join, Head, Nil, NonGt, Used, FloatIn, FloatLeft, Weight, Expr.HasFloat;
    hide Type.HasFloat, ArgsFloat, ExprsFloat, TypesFloat, InitsFloat, ParamsFloat, Grammar.ParseArgs;
    OfArgs(g, ts.tail);
  }

  lemma {:induction false} OfIndex(g: Grammar, e: Expr, ts: Tokens)
    requires Spelled(ts) && ts.Type() == LBRACKET && Writable(g, e)
    ensures Made(g, POSTFIXES, g.ParseIndex(e, ts))
    decreases NonGt(ts), 3
  {
    Pieces();
    hide Spelled, SpelledRope, SpelledToken, Join, Head, Nil, NonGt, Used, FloatIn, FloatLeft, Weight, Expr.HasFloat;
    hide Type.HasFloat, ArgsFloat, ExprsFloat, TypesFloat, InitsFloat, ParamsFloat, Grammar.ParseExpr;
    hide Grammar.ParseCols, Grammar.Indexed, Closes, EndsCompared, Level, Writable;
    OfExpr(g, ts.tail);
    var idx := g.ParseExpr(ts.tail);
    if idx.val.Some? && idx.rest.Type() == COMMA { OfCols(g, idx.rest.tail); }
    if idx.val.Some? {
      IndexedMade(g, e, idx.val.value);
      if idx.rest.Type() == COMMA {
        OfCols(g, idx.rest.tail);
        var col := g.ParseCols(idx.rest.tail);
        if col.val.Some? { ColumnMade(g, e, idx.val.value, col.val.value); }
      }
    }
  }

  lemma {:induction false} OfArgs(g: Grammar, ts: Tokens)
    requires Spelled(ts)
    ensures SpelledBoth(g.ParseArgs(ts))
    ensures g.ParseArgs(ts).val.Some? ==> forall a :: a in g.ParseArgs(ts).val.value ==> Writable(g, a.value)
    decreases NonGt(ts), 20
  {
    Pieces();
    hide Spelled, SpelledRope, SpelledToken, Join, Head, Nil, NonGt, Used, FloatIn, FloatLeft, Weight, Expr.HasFloat;
    hide Type.HasFloat, ArgsFloat, ExprsFloat, TypesFloat, InitsFloat, ParamsFloat, Grammar.ParseExpr, Writable;
    hide LeavesGt;
    if ts.Type() != RPAREN {
      var us := if g.IsNamedArg(ts) then ts.tail.tail else ts;
      OfExpr(g, us);
      var v := g.ParseExpr(us);
      if v.val.Some? && v.rest.Type() == COMMA { OfArgs(g, v.rest.tail); }
    }
  }

  // ----- primary forms -----

  lemma {:induction false} OfPrimary(g: Grammar, ts: Tokens)
    requires Spelled(ts)
    ensures Made(g, PRIMARIES, g.ParsePrimary(ts))
    decreases NonGt(ts), 5
  {
    Pieces();
    hide Spelled, SpelledRope, SpelledToken, Join, Head, Nil, NonGt, Used, FloatIn, FloatLeft, Weight, Expr.HasFloat;
    hide Type.HasFloat, ArgsFloat, ExprsFloat, TypesFloat, InitsFloat, ParamsFloat, Grammar.ParseClosure;
    hide Grammar.ParseElements, Grammar.ParseParen, Grammar.ParseIdent;
    if ts.Cons? {
      var tt := ts.Type();
      if tt == PIPE { OfClosure(g, ts); }
      else if tt == LBRACKET { OfElements(g, RBRACKET, ts.tail); }
      else if tt == LPAREN { OfParen(g, ts); }
      else if tt == IDENT { OfIdent(g, ts); }
    }
  }

  lemma {:induction false} OfParen(g: Grammar, ts: Tokens)
    requires Spelled(ts) && ts.Type() == LPAREN
    ensures Made(g, PRIMARIES, g.ParseParen(ts))
    decreases NonGt(ts), 0
  {
    Pieces();
    hide Spelled, SpelledRope, SpelledToken, Join, Head, Nil, NonGt, Used, FloatIn, FloatLeft, Weight, Expr.HasFloat;
    hide Type.HasFloat, ArgsFloat, ExprsFloat, TypesFloat, InitsFloat, ParamsFloat, Grammar.ParseExpr;
    hide Grammar.ParseElements;
    OfExpr(g, ts.tail);
    var e := g.ParseExpr(ts.tail);
    if e.val.Some? && e.rest.Type() == COMMA { OfElements(g, RPAREN, e.rest.tail); }
  }

  lemma {:induction false} OfElements(g: Grammar, close: TT, ts: Tokens)
    requires Spelled(ts)
    ensures SpelledBoth(g.ParseElements(close, ts))
    ensures g.ParseElements(close, ts).val.Some? ==>
      forall x :: x in g.ParseElements(close, ts).val.value ==> Writable(g, x)
    decreases NonGt(ts), 20
  {
    Pieces();
    hide Spelled, SpelledRope, SpelledToken, Join, Head, Nil, NonGt, Used, FloatIn, FloatLeft, Weight, Expr.HasFloat;
    hide Type.HasFloat, ArgsFloat, ExprsFloat, TypesFloat, InitsFloat, ParamsFloat, Grammar.ParseExpr, Writable;
    hide LeavesGt;
    if ts.Type() != close {
      OfExpr(g, ts);
      var e := g.ParseExpr(ts);
      if e.val.Some? && e.rest.Type() == COMMA { OfElements(g, close, e.rest.tail); }
    }
  }

  lemma {:induction false} OfIdent(g: Grammar, ts: Tokens)
    requires Spelled(ts) && ts.Type() == IDENT
    ensures Made(g, PRIMARIES, g.ParseIdent(ts))
    decreases NonGt(ts), 0
  {
    Pieces();
    hide Spelled, SpelledRope, SpelledToken, Join, Head, Nil, NonGt, Used, FloatIn, FloatLeft, Weight, Expr.HasFloat;
    hide Type.HasFloat, ArgsFloat, ExprsFloat, TypesFloat, InitsFloat, ParamsFloat, Grammar.ParseInits, ParseName;
    hide UpperName;
    NameSpelled(ts);
    var name := ParseName(ts);
    if name.val.Some? && name.rest.Type() == LBRACE { OfInits(g, name.rest.tail); }
  }

  lemma {:induction false} OfInits(g: Grammar, ts: Tokens)
    requires Spelled(ts)
    ensures SpelledBoth(g.ParseInits(ts))
    ensures g.ParseInits(ts).val.Some? ==> ((ts.Type() != RBRACE ==> |g.ParseInits(ts).val.value| > 0)
      && forall f :: f in g.ParseInits(ts).val.value && f.Init? ==> Writable(g, f.value))
    decreases NonGt(ts), 20
  {
    Pieces();
    hide Spelled, SpelledRope, SpelledToken, Join, Head, Nil, NonGt, Used, FloatIn, FloatLeft, Weight, Expr.HasFloat;
    hide Type.HasFloat, ArgsFloat, ExprsFloat, TypesFloat, InitsFloat, ParamsFloat, Grammar.ParseInit, Writable;
    if ts.Type() != RBRACE {
      OfInit(g, ts);
      var f := g.ParseInit(ts);
      if f.val.Some? && f.rest.Type() == COMMA { OfInits(g, f.rest.tail); }
    }
  }

  lemma {:induction false} OfInit(g: Grammar, ts: Tokens)
    requires Spelled(ts)
    ensures SpelledBoth(g.ParseInit(ts))
    ensures g.ParseInit(ts).val.Some? && g.ParseInit(ts).val.value.Init? ==>
      Writable(g, g.ParseInit(ts).val.value.value)
    decreases NonGt(ts), 0
  {
    Pieces();
    hide Spelled, SpelledRope, SpelledToken, Join, Head, Nil, NonGt, Used, FloatIn, FloatLeft, Weight, Expr.HasFloat;
    hide Type.HasFloat, ArgsFloat, ExprsFloat, TypesFloat, InitsFloat, ParamsFloat, Grammar.ParseExpr, Writable;
    hide LeavesGt;
    var name := Expect(IDENT, ts);
    if name.val.Some? && name.rest.Type() == COLON { OfExpr(g, name.rest.tail); }
  }

  lemma {:induction false} OfClosure(g: Grammar, ts: Tokens)
    requires Spelled(ts) && ts.Type() == PIPE
    ensures Made(g, PRIMARIES, g.ParseClosure(ts))
    decreases NonGt(ts), 0
  {
    Pieces();
    hide Spelled, SpelledRope, SpelledToken, Join, Head, Nil, NonGt, Used, FloatIn, FloatLeft, Weight, Expr.HasFloat;
    hide Type.HasFloat, ArgsFloat, ExprsFloat, TypesFloat, InitsFloat, ParamsFloat, Grammar.ParseParams;
    hide Grammar.ParseExpr;
    OfParams(g, ts.tail);
    var params := g.ParseParams(ts.tail);
    if params.val.Some? {
      var close := Expect(PIPE, params.rest);
      if close.val.Some? && close.rest.Type() != LBRACE { OfExpr(g, close.rest); }
    }
  }

  lemma {:induction false} OfParams(g: Grammar, ts: Tokens)
    requires Spelled(ts)
    ensures SpelledBoth(g.ParseParams(ts))
    ensures g.ParseParams(ts).val.Some? ==>
      forall p :: p in g.ParseParams(ts).val.value && p.ann.Some? ==> WritableType(g, p.ann.value)
    decreases NonGt(ts), 20
  {
    Pieces();
    hide Spelled, SpelledRope, SpelledToken, Join, Head, Nil, NonGt, Used, FloatIn, FloatLeft, Weight, Expr.HasFloat;
    hide Type.HasFloat, ArgsFloat, ExprsFloat, TypesFloat, InitsFloat, ParamsFloat, Grammar.ParseParam, WritableType;
    if ts.Type() != PIPE {
      OfParam(g, ts);
      var p := g.ParseParam(ts);
      if p.val.Some? && p.rest.Type() == COMMA { OfParams(g, p.rest.tail); }
    }
  }

  lemma {:induction false} OfParam(g: Grammar, ts: Tokens)
    requires Spelled(ts)
    ensures SpelledBoth(g.ParseParam(ts))
    ensures g.ParseParam(ts).val.Some? && g.ParseParam(ts).val.value.ann.Some? ==>
      WritableType(g, g.ParseParam(ts).val.value.ann.value)
    decreases NonGt(ts), 0
  {
    Pieces();
    hide Spelled, SpelledRope, SpelledToken, Join, Head, Nil, NonGt, Used, FloatIn, FloatLeft, Weight, Expr.HasFloat;
    hide Type.HasFloat, ArgsFloat, ExprsFloat, TypesFloat, InitsFloat, ParamsFloat, Grammar.ParseType, WritableType;
    var name := Expect(IDENT, ts);
    if name.val.Some? && name.rest.Type() == COLON { OfType(g, name.rest.tail); }
  }
}
