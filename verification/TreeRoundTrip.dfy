/** Every tree of the modelled grammar that can be written is read back as it was. */
module TreeRoundTrip {
  import opened Lexing
  import opened Syntax
  import opened Grammar
  import opened TreeTokens
  import opened TreeSteps
  import opened TreeReading

  // ----- no written operand begins type arguments -----

  /** Nothing here ends type arguments. */
  predicate Unclosed(s: Tokens) {
    s.Type() != SHR && (s.Type() == GT ==> s.Next() != LPAREN)
  }

  /** What may follow the first name of an operand. */
  predicate AfterName(s: Tokens) {
    && Unclosed(s) && s.Type() != COLONCOLON
    && (s.Type() == DOT ==> s.tail.Type() == IDENT && Unclosed(s.tail.tail))
  }

  ghost predicate Named(ts: Tokens) {
    exists name, s :: ts == NameLine(name, s) && AfterName(s)
  }

  lemma Names(name: string, s: Tokens)
    requires AfterName(s)
    ensures Named(NameLine(name, s))
  {}

  /** An operand of a comparison that begins with a name has no `>(` after it. */
  lemma {:induction false} LeadingName(g: Grammar, e: Expr, tail: Tokens)
    requires Writable(g, e) && Level(e) >= SUMS && AfterName(tail)
    ensures ExprLine(e, tail).Type() == IDENT ==> Named(ExprLine(e, tail))
    decreases e, 1
  {
    hide Named;
    if HasFirst(e) {
      FirstLine(e, tail);
      FirstWritable(g, e);
      FirstLevels(g, e, tail);
      FirstUnclosed(g, e, tail);
      hide ExprLine, Operand, AfterName, Writable, AfterFirst, FirstLevel, First;
      LeadingOperand(g, First(e), FirstLevel(e), AfterFirst(e, tail));
    } else {
      PlainName(e, tail);
    }
  }

  lemma PlainName(e: Expr, tail: Tokens)
    requires !HasFirst(e) && AfterName(tail)
    ensures ExprLine(e, tail).Type() == IDENT && Level(e) >= SUMS ==> Named(ExprLine(e, tail))
  {
    hide ExprsLine, InitsLine, ParamsLine, NameLine, Named;
    if e.Ident? { Names(e.name, tail); }
    if e.Struct? { Names(e.name, Sign(LBRACE, "{", InitsLine(e.fields, Sign(RBRACE, "}", tail)))); }
  }

  lemma FirstUnclosed(g: Grammar, e: Expr, tail: Tokens)
    requires HasFirst(e) && Writable(g, e) && Level(e) >= SUMS && AfterName(tail)
    ensures AfterName(AfterFirst(e, tail))
  {
    hide ArgsLine, TypeLine, ExprLine, Operand;
  }

  lemma {:induction false} LeadingOperand(g: Grammar, e: Expr, level: nat, tail: Tokens)
    requires Writable(g, e) && level >= SUMS && AfterName(tail)
    ensures Operand(e, level, tail).Type() == IDENT ==> Named(Operand(e, level, tail))
    decreases e, 2
  {
    hide ExprLine, Named;
    if Level(e) >= level { LeadingName(g, e, tail); }
  }

  lemma {:induction false} NameRestored(name: string, s: Tokens)
    requires s.Type() != COLONCOLON
    ensures Restore(ParseName(NameLine(name, s)).consumed, ParseName(NameLine(name, s)).rest) == NameLine(name, s)
    decreases |name|
  {
    var k := Colons(name);
    if k < |name| {
      var inner, ts := NameLine(name[k + 2..], s), NameLine(name, s);
      NameRestored(name[k + 2..], s);
      NameStart(name[k + 2..], s);
      NameRead(name[k + 2..], s);
      var r := ParseName(inner);
      assert ts.tail.tail == inner && ParseName(ts).rest == r.rest;
      assert ParseName(ts).consumed == Join(Head(ts), Join(Head(ts.tail), r.consumed));
      RestoreTwo(Head(ts), Join(Head(ts.tail), r.consumed), r.rest);
      RestoreTwo(Head(ts.tail), r.consumed, r.rest);
    }
  }

  /** A name after a `<`, without a `>(` after it: the attempt fails and puts all back. */
  lemma NoFish(g: Grammar, name: string, s: Tokens)
    requires AfterName(s)
    ensures Calm(g, Sign(LT, "<", NameLine(name, s)))
  {
    var ts := NameLine(name, s);
    hide ParseName, NameLine, Grammar.ParseType, Grammar.ParseNamed;
    NameRestored(name, s);
    NameRead(name, s);
    NameStart(name, s);
    WhichForm(g, ts);
    NamedTries(g, ts, name, s);
    TryFails(g, ts);
  }

  /** A named type where a name is: read, and what was consumed restores the list. */
  lemma NamedTries(g: Grammar, ts: Tokens, name: string, s: Tokens)
    requires ts.Type() == IDENT && AfterName(s) && Yields(ParseName(ts), s, name)
    requires Restore(ParseName(ts).consumed, s) == ts
    ensures var t := g.ParseNamed(ts);
      t.val.Some? && Unclosed(t.rest) && Restore(t.consumed, t.rest) == ts
  {
    hide ParseName, Threads, ReadsType;
    if s.Type() == DOT {
      var n := ParseName(ts).consumed;
      assert Expect(IDENT, s.tail).val.Some?;
      RestoreTwo(n, Join(Head(s), Head(s.tail)), s.tail.tail);
    }
  }

  lemma RestoreTwo(a: Rope, b: Rope, ts: Tokens)
    ensures Restore(Join(a, b), ts) == Restore(a, Restore(b, ts))
  {}

  lemma TryFails(g: Grammar, ts: Tokens)
    requires ts.Type() == IDENT && g.ParseType(ts).val.Some? && Unclosed(g.ParseType(ts).rest)
    requires Restore(g.ParseType(ts).consumed, g.ParseType(ts).rest) == ts
    ensures Calm(g, Sign(LT, "<", ts))
  {
    hide Grammar.ParseType, Threads, ReadsType;
    var t := g.ParseType(ts);
    var us := Sign(LT, "<", ts);
    var h := Head(us);
    RestoreTwo(h, t.consumed, t.rest);
    if t.rest.Type() == GT {
      RestoreTwo(Join(h, t.consumed), Head(t.rest), t.rest.tail);
    } else {
      RestoreTwo(Join(h, t.consumed), Nil(), t.rest);
    }
  }

  /** So the `<` of a comparison is never taken for the one of type arguments. */
  lemma ComparisonIsCalm(g: Grammar, op: string, r: Expr, tail: Tokens)
    requires Writable(g, r) && AfterName(tail)
    ensures Calm(g, Sign(OpType(op), op, Operand(r, SUMS, tail)))
  {
    hide Operand, Named, AfterName, Grammar.TryTurbofish, OpType, Writable;
    LessThan(op);
    if OpType(op) != LT {
      OtherSignIsCalm(g, OpType(op), op, Operand(r, SUMS, tail));
    } else {
      var ts := Operand(r, SUMS, tail);
      OperandStart(g, r, SUMS, tail);
      LeadingOperand(g, r, SUMS, tail);
      if ts.Type() == IDENT {
        NamedIsCalm(g, ts);
      } else {
        NotATypeIsCalm(g, ts);
      }
    }
  }

  lemma LessThan(op: string)
    ensures OpType(op) == LT <==> op == "<"
  {}

  lemma NamedIsCalm(g: Grammar, ts: Tokens)
    requires Named(ts)
    ensures Calm(g, Sign(LT, "<", ts))
  {
    hide NameLine, Calm;
    var name, s :| ts == NameLine(name, s) && AfterName(s);
    NoFish(g, name, s);
  }

  lemma NotATypeIsCalm(g: Grammar, ts: Tokens)
    requires ts.Type() !in TYPE_STARTS
    ensures Calm(g, Sign(LT, "<", ts))
  {
    hide Grammar.ParseType;
  }

  // ----- a positional argument does not look like a named one -----

  lemma {:induction false} NoColon(g: Grammar, e: Expr, tail: Tokens)
    requires Writable(g, e) && tail.Type() != COLON
    ensures ExprLine(e, tail).Type() == IDENT ==> ExprLine(e, tail).Next() != COLON
    decreases e, 1
  {
    if HasFirst(e) {
      FirstLine(e, tail);
      FirstWritable(g, e);
      FirstLevels(g, e, tail);
      hide ExprLine, Operand, Writable, AfterFirst, FirstLevel, First;
      OperandNoColon(g, First(e), FirstLevel(e), AfterFirst(e, tail));
    } else {
      hide ExprsLine, InitsLine, ParamsLine;
    }
  }

  lemma {:induction false} OperandNoColon(g: Grammar, e: Expr, level: nat, tail: Tokens)
    requires Writable(g, e) && tail.Type() != COLON
    ensures Operand(e, level, tail).Type() == IDENT ==> Operand(e, level, tail).Next() != COLON
    decreases e, 2
  {
    hide ExprLine;
    if Level(e) >= level { NoColon(g, e, tail); }
  }

  // ----- what may follow an expression -----

  /** A closing `>`. */
  predicate Closed(tail: Tokens) {
    tail.Type() == GT && tail.Next() != LPAREN
  }

  predicate Follows(g: Grammar, e: Expr, k: nat, tail: Tokens) {
    && Calm(g, tail) && !(e.Field? && k <= POSTFIXES && tail.Type() == LPAREN)
    && (Rank(tail.Type()) <= k || (Closed(tail) && Level(e) >= k && EndsCompared(e)))
  }

  predicate Stops(g: Grammar, e: Expr, k: nat, tail: Tokens) {
    && Calm(g, tail) && !(e.Field? && k <= POSTFIXES && tail.Type() == LPAREN)
    && (Rank(tail.Type()) < k || (Closed(tail) && Level(e) >= k && EndsCompared(e)))
  }

  /** Where a whole expression ends. */
  predicate Ends(g: Grammar, e: Expr, tail: Tokens) {
    Calm(g, tail) && (Rank(tail.Type()) == 0 || (Closed(tail) && EndsCompared(e)))
  }

  lemma ComparedLevel(e: Expr)
    requires EndsCompared(e)
    ensures PIPES <= Level(e) <= COMPARES
  {}

  // ----- reading expressions -----

  /** At every level the operand's tokens read as the operand, from where the level's loop
      goes on. */
  lemma {:induction false} Reads(g: Grammar, e: Expr, k: nat, tail: Tokens)
    requires PIPES <= k <= PRIMARIES && Writable(g, e) && Follows(g, e, k, tail)
    requires !IsLoop(k) ==> Stops(g, e, k, tail)
    ensures SameAs(ParseAt(g, k, Operand(e, k, tail)), LoopAt(g, k, e, tail))
    decreases e, (if Level(e) < k then 60 else 20) + (PRIMARIES - k)
  {
    hide ParseAt, LoopAt, Calm, Writable, ExprLine, Rank, Operand, Follows, Stops;
    if Level(e) == k {
      OwnLevel(g, e, tail);
    } else if k == PRIMARIES {
      ParenEnds(g, e, tail);
      ExprRead(g, e, Sign(RPAREN, ")", tail));
      ParenPrimary(g, e, tail);
    } else {
      FollowsTighter(g, e, k, tail);
      SameOperand(e, k, tail);
      Reads(g, e, k + 1, tail);
      LoopEnds(g, k + 1, e, tail);
      if k == UNARIES { UnaryStart(g, e, tail); }
      FromTighter(g, k, Operand(e, k, tail), tail, e);
    }
  }

  lemma SameOperand(e: Expr, k: nat, tail: Tokens)
    requires Level(e) != k
    ensures Operand(e, k, tail) == Operand(e, k + 1, tail)
  {
    hide ExprLine;
  }

  /** A level tighter, the same token ends it sooner. */
  lemma FollowsTighter(g: Grammar, e: Expr, k: nat, tail: Tokens)
    requires PIPES <= k < PRIMARIES && Level(e) != k && Follows(g, e, k, tail)
    requires !IsLoop(k) ==> Stops(g, e, k, tail)
    ensures Calm(g, tail) && Follows(g, e, k + 1, tail) && Stops(g, e, k + 1, tail)
    ensures (IsLoop(k + 1) ==> Rank(tail.Type()) != k + 1) && (!IsLoop(k) ==> Rank(tail.Type()) != k)
  {
    hide Calm, Rank;
    if EndsCompared(e) { ComparedLevel(e); }
    GtRank(tail);
  }

  lemma GtRank(tail: Tokens)
    ensures tail.Type() == GT ==> Rank(tail.Type()) == COMPARES
    ensures tail.Type() == LPAREN ==> Rank(tail.Type()) == POSTFIXES
  {}

  lemma UnaryStart(g: Grammar, e: Expr, tail: Tokens)
    requires Writable(g, e) && Level(e) != UNARIES
    ensures Operand(e, UNARIES, tail).Type() !in {MINUS, BANG}
  {
    hide ExprLine, Writable;
    if Level(e) > UNARIES { ExprStart(g, e, tail); }
  }

  lemma ParenEnds(g: Grammar, e: Expr, tail: Tokens)
    ensures Ends(g, e, Sign(RPAREN, ")", tail))
  {}

  lemma ParenPrimary(g: Grammar, e: Expr, tail: Tokens)
    requires Level(e) < PRIMARIES
    requires Yields(g.ParseExpr(ExprLine(e, Sign(RPAREN, ")", tail))), Sign(RPAREN, ")", tail), e)
    ensures SameAs(ParseAt(g, PRIMARIES, Operand(e, PRIMARIES, tail)), LoopAt(g, PRIMARIES, e, tail))
  {
    hide Grammar.ParseExpr, Grammar.ParsePrimary, ExprLine;
    ParenRead(g, ExprLine(e, Sign(RPAREN, ")", tail)), e, tail);
  }

  lemma {:induction false} OwnLevel(g: Grammar, e: Expr, tail: Tokens)
    requires Level(e) >= PIPES && Writable(g, e) && Follows(g, e, Level(e), tail)
    requires !IsLoop(Level(e)) ==> Stops(g, e, Level(e), tail)
    ensures SameAs(ParseAt(g, Level(e), Operand(e, Level(e), tail)), LoopAt(g, Level(e), e, tail))
    decreases e, 15
  {
    hide ParseAt, LoopAt, Calm, Writable, ExprLine, Follows, Stops, Rank, OpType;
    match e
    case Binary(_, _, _) => BinaryReads(g, e, tail);
    case Pipe(_, _) => PipeReads(g, e, tail);
    case Range(_, _, _) => RangeReads(g, e, tail);
    case Unary(_, _) => UnaryReads(g, e, tail);
    case Cast(_, _) => CastReads(g, e, tail);
    case Field(_, _) => FieldReads(g, e, tail);
    case Method(_, _, _) => MethodReads(g, e, tail);
    case Call(_, _, _) => CallReads(g, e, tail);
    case Index(_, _) => IndexReads(g, e, tail);
    case Slice(_, _, _) => SliceReads(g, e, tail);
    case _ => PrimaryReads(g, e, tail);
  }

  lemma {:induction false} ExprRead(g: Grammar, e: Expr, tail: Tokens)
    requires Writable(g, e) && Ends(g, e, tail)
    ensures Yields(g.ParseExpr(ExprLine(e, tail)), tail, e)
    decreases e, 40
  {
    hide Calm, Writable, ExprLine, Rank, LoopAt, ParseAt;
    GtRank(tail);
    if Level(e) == ANY {
      ClosureIsAny(g, e);
      ClosurePrimary(g, e, tail);
      ClosureStart(e, tail);
      AtPrimary(g, ExprLine(e, tail));
      Descends(g, PRIMARIES, ExprLine(e, tail), e, tail);
      ExprIsPipe(g, ExprLine(e, tail));
    } else {
      Reads(g, e, PIPES, tail);
      LoopEnds(g, PIPES, e, tail);
      ExprIsPipe(g, ExprLine(e, tail));
    }
  }

  lemma ClosureIsAny(g: Grammar, e: Expr)
    requires Writable(g, e) && Level(e) == ANY
    ensures e.Closure? && !EndsCompared(e)
  {}

  lemma AtPrimary(g: Grammar, ts: Tokens)
    ensures ParseAt(g, PRIMARIES, ts) == g.ParsePrimary(ts)
  {
    hide Grammar.ParsePrimary;
  }

  lemma AtPostfix(g: Grammar, e: Expr, ts: Tokens)
    ensures ParseAt(g, POSTFIXES, ts) == g.ParsePostfix(ts) && LoopAt(g, POSTFIXES, e, ts) == g.PostfixLoop(e, ts)
  {
    hide Grammar.ParsePostfix, Grammar.PostfixLoop;
  }

  lemma AtPipe(g: Grammar, e: Expr, ts: Tokens)
    ensures ParseAt(g, PIPES, ts) == g.ParsePipe(ts) && LoopAt(g, PIPES, e, ts) == g.PipeLoop(e, ts)
    ensures ParseAt(g, RANGES, ts) == g.ParseRange(ts) && LoopAt(g, RANGES, e, ts) == Parsed(Empty, ts, Some(e))
  {
    hide Grammar.ParsePipe, Grammar.PipeLoop, Grammar.ParseRange;
  }

  lemma ClosureStart(e: Expr, tail: Tokens)
    requires e.Closure?
    ensures ExprLine(e, tail).Type() == PIPE
  {}

  lemma ExprIsPipe(g: Grammar, ts: Tokens)
    ensures g.ParseExpr(ts) == g.ParsePipe(ts) == ParseAt(g, PIPES, ts)
  {
    hide Grammar.ParsePipe;
  }

  /** What a tighter level reads up to a closing token, every looser one does. */
  lemma {:induction false} Descends(g: Grammar, k: nat, ts: Tokens, e: Expr, tail: Tokens)
    requires PIPES <= k <= PRIMARIES && Yields(ParseAt(g, k, ts), tail, e) && Rank(tail.Type()) == 0 && Calm(g, tail)
    requires ts.Type() !in {MINUS, BANG}
    ensures Yields(ParseAt(g, PIPES, ts), tail, e)
    decreases k
  {
    hide ParseAt, LoopAt, Calm, Rank;
    if k > PIPES {
      FromTighter(g, k - 1, ts, tail, e);
      LoopEnds(g, k - 1, e, tail);
      Descends(g, k - 1, ts, e, tail);
    }
  }

  // ----- operators -----

  /** The operands of a binary operator end where they should. */
  lemma BinaryFollows(g: Grammar, e: Expr, tail: Tokens)
    requires e.Binary? && Writable(g, e) && Follows(g, e, Level(e), tail)
    requires !IsLoop(Level(e)) ==> Stops(g, e, Level(e), tail)
    ensures var k := Level(e);
      var s := Sign(OpType(e.op), e.op, Operand(e.right, RightLevel(k), tail));
      && ORS <= k <= POWERS && Rank(OpType(e.op)) == k && Calm(g, s)
      && Follows(g, e.left, LeftLevel(k), s) && (!IsLoop(LeftLevel(k)) ==> Stops(g, e.left, LeftLevel(k), s))
      && Follows(g, e.right, RightLevel(k), tail) && (!IsLoop(RightLevel(k)) ==> Stops(g, e.right, RightLevel(k), tail))
      && (IsLoop(RightLevel(k)) ==> Rank(tail.Type()) != RightLevel(k))
  {
    hide Operand, Calm, Writable;
    BinaryRank(g, e);
    GtRank(tail);
    var k := Level(e);
    if k == COMPARES {
      WritableRight(g, e);
      EndIsUnclosed(g, e, tail);
      ComparisonIsCalm(g, e.op, e.right, tail);
    } else {
      OtherIsCalm(g, e.op, Operand(e.right, RightLevel(k), tail));
    }
  }

  lemma BinaryRank(g: Grammar, e: Expr)
    requires e.Binary? && Writable(g, e)
    ensures ORS <= Level(e) <= POWERS && Rank(OpType(e.op)) == Level(e)
  {}

  lemma WritableRight(g: Grammar, e: Expr)
    requires e.Binary? && Writable(g, e)
    ensures Writable(g, e.right) && Writable(g, e.left)
  {}

  lemma EndIsUnclosed(g: Grammar, e: Expr, tail: Tokens)
    requires Stops(g, e, COMPARES, tail)
    ensures AfterName(tail)
  {
    hide Calm, EndsCompared, Level;
  }

  lemma OtherIsCalm(g: Grammar, op: string, ts: Tokens)
    requires Rank(OpType(op)) != COMPARES
    ensures Calm(g, Sign(OpType(op), op, ts))
  {
    hide Grammar.TryTurbofish;
  }

  lemma {:induction false} BinaryReads(g: Grammar, e: Expr, tail: Tokens)
    requires e.Binary? && Writable(g, e) && Follows(g, e, Level(e), tail)
    requires !IsLoop(Level(e)) ==> Stops(g, e, Level(e), tail)
    ensures SameAs(ParseAt(g, Level(e), Operand(e, Level(e), tail)), LoopAt(g, Level(e), e, tail))
    decreases e, 10
  {
    hide ParseAt, LoopAt, Calm, Writable, Rank, Follows, Stops;
    BinaryFollows(g, e, tail);
    WritableRight(g, e);
    var k, op := Level(e), e.op;
    var us := Operand(e.right, RightLevel(k), tail);
    var s := Sign(OpType(op), op, us);
    Reads(g, e.left, LeftLevel(k), s);
    Reads(g, e.right, RightLevel(k), tail);
    StopsHere(g, e.right, RightLevel(k), tail);
    BinaryJoins(g, e, us, tail);
  }

  lemma StopsHere(g: Grammar, e: Expr, k: nat, tail: Tokens)
    requires Follows(g, e, k, tail) && (IsLoop(k) ==> Rank(tail.Type()) != k)
    ensures Yields(LoopAt(g, k, e, tail), tail, e)
  {
    hide LoopAt, Calm;
    LoopEnds(g, k, e, tail);
  }

  lemma BinaryJoins(g: Grammar, e: Expr, us: Tokens, tail: Tokens)
    requires e.Binary? && ORS <= Level(e) <= POWERS && Rank(OpType(e.op)) == Level(e)
    requires us == Operand(e.right, RightLevel(Level(e)), tail)
    requires Yields(ParseAt(g, RightLevel(Level(e)), us), tail, e.right)
    requires var s := Sign(OpType(e.op), e.op, us);
      && Calm(g, s)
      && SameAs(ParseAt(g, LeftLevel(Level(e)), Operand(e.left, LeftLevel(Level(e)), s)),
                LoopAt(g, LeftLevel(Level(e)), e.left, s))
    ensures SameAs(ParseAt(g, Level(e), Operand(e, Level(e), tail)), LoopAt(g, Level(e), e, tail))
  {
    hide ParseAt, LoopAt, Calm, Rank, OpType;
    var k, op := Level(e), e.op;
    var s := Sign(OpType(op), op, us);
    var ts := Operand(e.left, LeftLevel(k), s);
    assert Operand(e, k, tail) == ts;
    hide Operand;
    if IsLoop(k) {
      LoopMore(g, op, e.left, us, tail, e.right);
    } else {
      LoopEnds(g, LeftLevel(k), e.left, s);
      NonLoopJoins(g, e, ts, us, tail);
    }
  }

  lemma NonLoopJoins(g: Grammar, e: Expr, ts: Tokens, us: Tokens, tail: Tokens)
    requires e.Binary? && ORS <= Level(e) <= POWERS && Rank(OpType(e.op)) == Level(e) && !IsLoop(Level(e))
    requires Yields(ParseAt(g, LeftLevel(Level(e)), ts), Sign(OpType(e.op), e.op, us), e.left)
    requires Yields(ParseAt(g, RightLevel(Level(e)), us), tail, e.right)
    ensures SameAs(ParseAt(g, Level(e), ts), LoopAt(g, Level(e), e, tail))
  {
    hide Grammar.ParseEq, Grammar.ParseCmp, Grammar.ParseShift, Grammar.ParseAdd, Grammar.ParsePow, Grammar.ParseUnary;
    hide Grammar.ParseExpr, Grammar.ParsePipe, Grammar.ParseRange, Grammar.ParseOr, Grammar.ParseAnd, Grammar.ParseMul;
    hide Grammar.ParseCast, Grammar.ParsePostfix, Grammar.ParsePrimary;
    var k := Level(e);
    if k == EQUALS { EqStep(g, ts, e.left, e.op, us, e.right, tail); }
    else if k == COMPARES { CmpStep(g, ts, e.left, e.op, us, e.right, tail); }
    else { PowStep(g, ts, e.left, us, e.right, tail); }
  }

  lemma {:induction false} PipeReads(g: Grammar, e: Expr, tail: Tokens)
    requires e.Pipe? && Writable(g, e) && Follows(g, e, PIPES, tail)
    ensures SameAs(ParseAt(g, PIPES, Operand(e, PIPES, tail)), LoopAt(g, PIPES, e, tail))
    decreases e, 10
  {
    hide Operand, Follows, Stops, ExprLine, ParseAt, LoopAt, Writable;
    var us := Operand(e.right, RANGES, tail);
    var s := Sign(PIPE_OP, "|>", us);
    var ts := Operand(e.left, PIPES, s);
    PipeLine(e, tail);
    PipeFollows(g, e, us, tail);
    Reads(g, e.left, PIPES, s);
    Reads(g, e.right, RANGES, tail);
    OperandStart(g, e.right, RANGES, tail);
    PipeJoins(g, e, ts, us, tail);
  }

  lemma PipeLine(e: Expr, tail: Tokens)
    requires e.Pipe?
    ensures Operand(e, PIPES, tail) == Operand(e.left, PIPES, Sign(PIPE_OP, "|>", Operand(e.right, RANGES, tail)))
  {}

  lemma PipeFollows(g: Grammar, e: Expr, us: Tokens, tail: Tokens)
    requires e.Pipe? && Writable(g, e) && Follows(g, e, PIPES, tail)
    ensures Writable(g, e.left) && Writable(g, e.right) && Follows(g, e.left, PIPES, Sign(PIPE_OP, "|>", us))
    ensures Follows(g, e.right, RANGES, tail) && Stops(g, e.right, RANGES, tail)
  {
    GtRank(tail);
    hide Calm;
    OtherSignIsCalm(g, PIPE_OP, "|>", us);
  }

  lemma PipeJoins(g: Grammar, e: Expr, ts: Tokens, us: Tokens, tail: Tokens)
    requires e.Pipe? && us.Type() != AS
    requires SameAs(ParseAt(g, PIPES, ts), LoopAt(g, PIPES, e.left, Sign(PIPE_OP, "|>", us)))
    requires SameAs(ParseAt(g, RANGES, us), LoopAt(g, RANGES, e.right, tail))
    ensures SameAs(ParseAt(g, PIPES, ts), LoopAt(g, PIPES, e, tail))
  {
    hide ParseAt, LoopAt, Grammar.PipeLoop, Grammar.ParsePipe, Grammar.ParseRange;
    AtPipe(g, e.left, ts);
    AtPipe(g, e.left, Sign(PIPE_OP, "|>", us));
    AtPipe(g, e.right, us);
    AtPipe(g, e.right, tail);
    AtPipe(g, e, tail);
    PipeMore(g, e.left, us, tail, e.right);
  }

  lemma OtherSignIsCalm(g: Grammar, tt: TT, text: string, ts: Tokens)
    requires tt != LT
    ensures Calm(g, Sign(tt, text, ts))
  {
    hide Grammar.TryTurbofish;
  }

  lemma {:induction false} RangeReads(g: Grammar, e: Expr, tail: Tokens)
    requires e.Range? && Writable(g, e) && Stops(g, e, RANGES, tail)
    ensures SameAs(ParseAt(g, RANGES, Operand(e, RANGES, tail)), LoopAt(g, RANGES, e, tail))
    decreases e, 10
  {
    hide Calm, Grammar.ParseOr, Grammar.OrLoop, Grammar.ParseRange;
    var us := Operand(e.end, ORS, tail);
    assert Operand(e, RANGES, tail) == Operand(e.start, ORS, Dots(e.inclusive, us));
    GtRank(tail);
    DotsEnd(g, e.start, e.inclusive, us);
    Bounds(g, e.start, Dots(e.inclusive, us));
    Bounds(g, e.end, tail);
    RangeStep(g, Operand(e.start, ORS, Dots(e.inclusive, us)), e.start, e.inclusive, us, e.end, tail);
  }

  lemma DotsEnd(g: Grammar, a: Expr, inclusive: bool, us: Tokens)
    ensures Calm(g, Dots(inclusive, us)) && Rank(Dots(inclusive, us).Type()) == RANGES
  {
    hide Grammar.TryTurbofish;
  }

  /** A bound of a range or a slice. */
  lemma {:induction false} Bounds(g: Grammar, a: Expr, tail: Tokens)
    requires Writable(g, a) && Stops(g, a, ORS, tail)
    ensures Yields(g.ParseOr(Operand(a, ORS, tail)), tail, a)
    decreases a, 80
  {
    hide Calm, Grammar.ParseOr, Grammar.OrLoop, Operand, Writable;
    GtRank(tail);
    Reads(g, a, ORS, tail);
    LoopEnds(g, ORS, a, tail);
  }

  lemma {:induction false} UnaryReads(g: Grammar, e: Expr, tail: Tokens)
    requires e.Unary? && Writable(g, e) && Stops(g, e, UNARIES, tail)
    ensures SameAs(ParseAt(g, UNARIES, Operand(e, UNARIES, tail)), LoopAt(g, UNARIES, e, tail))
    decreases e, 10
  {
    hide Calm, Grammar.ParseUnary, UnaryType, ExprLine, Operand, ParseAt, LoopAt;
    var us := Operand(e.operand, UNARIES, tail);
    UnaryLine(e, tail);
    Reads(g, e.operand, UNARIES, tail);
    AtUnary(g, e.operand, us, tail);
    AtUnary(g, e, Sign(UnaryType(e.op), e.op, us), tail);
    UnaryStep(g, e.op, us, e.operand, tail);
  }

  lemma UnaryLine(e: Expr, tail: Tokens)
    requires e.Unary?
    ensures Operand(e, UNARIES, tail) == Sign(UnaryType(e.op), e.op, Operand(e.operand, UNARIES, tail))
  {}

  lemma AtUnary(g: Grammar, e: Expr, ts: Tokens, us: Tokens)
    ensures ParseAt(g, UNARIES, ts) == g.ParseUnary(ts) && LoopAt(g, UNARIES, e, us) == Parsed(Empty, us, Some(e))
    ensures ParseAt(g, CASTS, ts) == g.ParseCast(ts) && LoopAt(g, CASTS, e, us) == Parsed(Empty, us, Some(e))
  {
    hide Grammar.ParseUnary, Grammar.ParseCast;
  }

  lemma {:induction false} CastReads(g: Grammar, e: Expr, tail: Tokens)
    requires e.Cast? && Writable(g, e) && Stops(g, e, CASTS, tail)
    ensures SameAs(ParseAt(g, CASTS, Operand(e, CASTS, tail)), LoopAt(g, CASTS, e, tail))
    decreases e, 10
  {
    hide Calm, Grammar.ParseCast, Grammar.ParsePostfix, Grammar.PostfixLoop, TypeLine, WritableType, ExprLine, Operand;
    hide ParseAt, LoopAt, Grammar.ParseType;
    var us := TypeLine(e.target, tail);
    var s := Sign(AS, "as", us);
    CastLine(e, tail);
    OtherSignIsCalm(g, AS, "as", us);
    Reads(g, e.expr, POSTFIXES, s);
    LoopEnds(g, POSTFIXES, e.expr, s);
    TypeRead(g, e.target, tail);
    AtPostfix(g, e.expr, Operand(e.expr, POSTFIXES, s));
    AtUnary(g, e, Operand(e.expr, POSTFIXES, s), tail);
    CastStep(g, Operand(e.expr, POSTFIXES, s), e.expr, us, e.target, tail);
  }

  lemma CastLine(e: Expr, tail: Tokens)
    requires e.Cast?
    ensures Operand(e, CASTS, tail) == Operand(e.expr, POSTFIXES, Sign(AS, "as", TypeLine(e.target, tail)))
  {
    hide TypeLine;
  }

  // ----- postfix forms -----

  /** What a postfix form is applied to, before the token that applies it. */
  lemma {:induction false} ObjectReads(g: Grammar, o: Expr, tt: TT, text: string, us: Tokens)
    requires Writable(g, o) && tt in {DOT, LBRACKET, LPAREN} && (o.Field? ==> tt != LPAREN)
    ensures SameAs(g.ParsePostfix(Operand(o, POSTFIXES, Sign(tt, text, us))), g.PostfixLoop(o, Sign(tt, text, us)))
    decreases o, 80
  {
    hide Grammar.ParsePostfix, Grammar.PostfixLoop, Operand, Writable, Calm;
    OtherSignIsCalm(g, tt, text, us);
    Reads(g, o, POSTFIXES, Sign(tt, text, us));
  }

  lemma {:induction false} FieldReads(g: Grammar, e: Expr, tail: Tokens)
    requires e.Field? && Writable(g, e) && Follows(g, e, POSTFIXES, tail)
    ensures SameAs(ParseAt(g, POSTFIXES, Operand(e, POSTFIXES, tail)), LoopAt(g, POSTFIXES, e, tail))
    decreases e, 10
  {
    hide Grammar.ParsePostfix, Grammar.PostfixLoop, Calm;
    var us := TreeTokens.Word(e.field, tail);
    assert Operand(e, POSTFIXES, tail) == Operand(e.obj, POSTFIXES, Sign(DOT, ".", us));
    ObjectReads(g, e.obj, DOT, ".", us);
    FieldMore(g, e.obj, e.field, tail);
  }

  lemma {:induction false} MethodReads(g: Grammar, e: Expr, tail: Tokens)
    requires e.Method? && Writable(g, e)
    ensures SameAs(ParseAt(g, POSTFIXES, Operand(e, POSTFIXES, tail)), LoopAt(g, POSTFIXES, e, tail))
    decreases e, 10
  {
    hide Grammar.ParsePostfix, Grammar.PostfixLoop, ArgsLine, Grammar.ParseArgs;
    var args := ArgsLine(e.args, Sign(RPAREN, ")", tail));
    var us := TreeTokens.Word(e.method_, Sign(LPAREN, "(", args));
    assert Operand(e, POSTFIXES, tail) == Operand(e.obj, POSTFIXES, Sign(DOT, ".", us));
    hide Operand;
    ObjectReads(g, e.obj, DOT, ".", us);
    ArgsRead(g, e.args, Sign(RPAREN, ")", tail));
    MethodMore(g, e.obj, e.method_, args, e.args, tail);
  }

  lemma {:induction false} CallReads(g: Grammar, e: Expr, tail: Tokens)
    requires e.Call? && Writable(g, e)
    ensures SameAs(ParseAt(g, POSTFIXES, Operand(e, POSTFIXES, tail)), LoopAt(g, POSTFIXES, e, tail))
    decreases e, 10
  {
    hide Grammar.ParsePostfix, Grammar.PostfixLoop, ArgsLine, Grammar.ParseArgs, TypeLine, WritableType;
    var args := ArgsLine(e.args, Sign(RPAREN, ")", tail));
    ArgsRead(g, e.args, Sign(RPAREN, ")", tail));
    if |e.typeArgs| == 0 {
      assert e.typeArgs == [];
      CalleeReads(g, e.func, args);
      CallMore(g, e.func, args, e.args, tail);
    } else {
      assert e.typeArgs == [e.typeArgs[0]];
      GenericCallReads(g, e, args, tail);
    }
  }

  /** A field is called in parentheses: otherwise it is a method. */
  lemma {:induction false} CalleeReads(g: Grammar, f: Expr, us: Tokens)
    requires Writable(g, f)
    ensures var s := Sign(LPAREN, "(", us);
      SameAs(g.ParsePostfix(Operand(f, if f.Field? then PRIMARIES else POSTFIXES, s)), g.PostfixLoop(f, s))
    decreases f, 90
  {
    hide Grammar.ParsePostfix, Grammar.PostfixLoop, Grammar.ParsePrimary, Operand, Calm, Writable;
    var s := Sign(LPAREN, "(", us);
    if f.Field? {
      OtherSignIsCalm(g, LPAREN, "(", us);
      Reads(g, f, PRIMARIES, s);
      FromTighter(g, POSTFIXES, Operand(f, PRIMARIES, s), s, f);
    } else {
      ObjectReads(g, f, LPAREN, "(", us);
    }
  }

  lemma {:induction false} GenericCallReads(g: Grammar, e: Expr, args: Tokens, tail: Tokens)
    requires e.Call? && Writable(g, e) && |e.typeArgs| == 1
    requires Yields(g.ParseArgs(args), Sign(RPAREN, ")", tail), e.args)
    requires args == ArgsLine(e.args, Sign(RPAREN, ")", tail))
    ensures SameAs(g.ParsePostfix(ExprLine(e, tail)), g.PostfixLoop(e, tail))
    decreases e, 5
  {
    hide Grammar.ParsePostfix, Grammar.PostfixLoop, ArgsLine, Grammar.ParseArgs, TypeLine, Grammar.ParsePrimary;
    var t := e.typeArgs[0];
    var us := TypeLine(t, Sign(GT, ">", Sign(LPAREN, "(", args)));
    var s := Sign(LT, "<", us);
    var ts := NameLine(e.func.name, s);
    GenericLine(e, tail);
    hide ExprLine, NameLine, WritableType, Writable, Grammar.ParseType, ParseAt, LoopAt;
    TypeArgWritable(g, e);
    TypeStart(g, t, Sign(GT, ">", Sign(LPAREN, "(", args)));
    TypeRead(g, t, Sign(GT, ">", Sign(LPAREN, "(", args)));
    IdentRead(g, e.func.name, s);
    AtPrimary(g, ts);
    FromTighter(g, POSTFIXES, ts, s, e.func);
    AtPostfix(g, e.func, ts);
    AtPostfix(g, e.func, s);
    GenericCallMore(g, e.func, us, t, args, e.args, tail);
  }

  lemma GenericLine(e: Expr, tail: Tokens)
    requires e.Call? && |e.typeArgs| == 1 && e.func.Ident?
    ensures var args := ArgsLine(e.args, Sign(RPAREN, ")", tail));
      ExprLine(e, tail)
      == NameLine(e.func.name, Sign(LT, "<", TypeLine(e.typeArgs[0], Sign(GT, ">", Sign(LPAREN, "(", args)))))
  {
    hide ArgsLine, TypeLine, NameLine;
    var rest := Sign(LPAREN, "(", ArgsLine(e.args, Sign(RPAREN, ")", tail)));
    var s := Sign(LT, "<", TypeLine(e.typeArgs[0], Sign(GT, ">", rest)));
    assert ExprLine(e, tail) == Operand(e.func, POSTFIXES, s);
    assert Operand(e.func, POSTFIXES, s) == ExprLine(e.func, s);
  }

  lemma TypeArgWritable(g: Grammar, e: Expr)
    requires e.Call? && Writable(g, e) && |e.typeArgs| == 1
    ensures e.func.Ident? && StartsAsType(e.typeArgs[0]) && WritableType(g, e.typeArgs[0])
    ensures e == Call(e.func, e.args, [e.typeArgs[0]])
  {}

  lemma {:induction false} IndexReads(g: Grammar, e: Expr, tail: Tokens)
    requires e.Index? && Writable(g, e)
    ensures SameAs(ParseAt(g, POSTFIXES, Operand(e, POSTFIXES, tail)), LoopAt(g, POSTFIXES, e, tail))
    decreases e, 10
  {
    hide Grammar.ParsePostfix, Grammar.PostfixLoop;
    if e.index.Range? {
      ColumnReads(g, e, tail);
    } else {
      PlainIndexReads(g, e, tail);
    }
  }

  lemma {:induction false} PlainIndexReads(g: Grammar, e: Expr, tail: Tokens)
    requires e.Index? && Writable(g, e) && !e.index.Range?
    ensures SameAs(g.ParsePostfix(ExprLine(e, tail)), g.PostfixLoop(e, tail))
    decreases e, 5
  {
    hide Grammar.ParsePostfix, Grammar.PostfixLoop, Grammar.ParseExpr, Operand;
    var us := ExprLine(e.index, Sign(RBRACKET, "]", tail));
    assert ExprLine(e, tail) == Operand(e.obj, POSTFIXES, Sign(LBRACKET, "[", us));
    hide ExprLine;
    ObjectReads(g, e.obj, LBRACKET, "[", us);
    BracketEnds(g, e.index, tail);
    ExprRead(g, e.index, Sign(RBRACKET, "]", tail));
    IndexMore(g, e.obj, us, e.index, tail);
  }

  lemma BracketEnds(g: Grammar, e: Expr, tail: Tokens)
    ensures Ends(g, e, Sign(RBRACKET, "]", tail)) && Stops(g, e, ORS, Sign(RBRACKET, "]", tail))
    ensures Ends(g, e, Sign(COMMA, ",", tail)) && Stops(g, e, ORS, Sign(COMMA, ",", tail))
  {}

  /** A slice's inside is a range. */
  lemma {:induction false} InsideReads(g: Grammar, e: Expr, tail: Tokens)
    requires e.Slice? && Writable(g, e) && Calm(g, tail) && Rank(tail.Type()) == 0
    ensures Yields(g.ParseExpr(InsideLine(e, tail)), tail, Range(e.start, e.end, false))
    decreases e, 4
  {
    hide Calm, Grammar.ParseOr, Grammar.ParseRange, Grammar.PipeLoop, Grammar.ParseExpr, Grammar.ParsePipe, Operand;
    hide ParseAt, LoopAt;
    var us := Operand(e.end, ORS, tail);
    var ts, range := InsideLine(e, tail), Range(e.start, e.end, false);
    DotsEnd(g, e.start, false, us);
    Bounds(g, e.start, Dots(false, us));
    Bounds(g, e.end, tail);
    RangeStep(g, ts, e.start, false, us, e.end, tail);
    AtPipe(g, range, ts);
    FromTighter(g, PIPES, ts, tail, range);
    LoopEnds(g, PIPES, range, tail);
    ExprIsPipe(g, ts);
  }

  lemma PostfixLine(e: Expr, tail: Tokens)
    requires HasFirst(e) && Level(e) == POSTFIXES
    ensures Operand(e, POSTFIXES, tail) == Operand(First(e), FirstLevel(e), AfterFirst(e, tail))
  {
    FirstLine(e, tail);
    hide ExprLine, AfterFirst;
  }

  lemma {:induction false} SliceReads(g: Grammar, e: Expr, tail: Tokens)
    requires e.Slice? && Writable(g, e)
    ensures SameAs(ParseAt(g, POSTFIXES, Operand(e, POSTFIXES, tail)), LoopAt(g, POSTFIXES, e, tail))
    decreases e, 10
  {
    hide Grammar.ParsePostfix, Grammar.PostfixLoop, Grammar.ParseExpr, ParseAt, LoopAt, Calm, Operand, InsideLine;
    hide ExprLine;
    var close := Sign(RBRACKET, "]", tail);
    var us := InsideLine(e, close);
    PostfixLine(e, tail);
    ObjectReads(g, e.obj, LBRACKET, "[", us);
    OtherSignIsCalm(g, RBRACKET, "]", tail);
    InsideReads(g, e, close);
    IndexMore(g, e.obj, us, Range(e.start, e.end, false), tail);
    AtPostfix(g, e, Operand(e.obj, POSTFIXES, Sign(LBRACKET, "[", us)));
    AtPostfix(g, e, tail);
  }

  /** A range in the second dimension. */
  lemma {:induction false} ColumnReads(g: Grammar, e: Expr, tail: Tokens)
    requires e.Index? && Writable(g, e) && e.index.Range?
    ensures SameAs(g.ParsePostfix(ExprLine(e, tail)), g.PostfixLoop(e, tail))
    decreases e, 5
  {
    hide Grammar.ParsePostfix, Grammar.PostfixLoop, Grammar.ParseExpr, Operand;
    var o, i := e.obj, e.index;
    var column := ExprLine(i, Sign(RBRACKET, "]", tail));
    var comma := Sign(COMMA, ",", column);
    BracketEnds(g, i, tail);
    ExprRead(g, i, Sign(RBRACKET, "]", tail));
    BracketEnds(g, o, column);
    if o.Index? {
      var us := ExprLine(o.index, comma);
      assert ExprLine(e, tail) == Operand(o.obj, POSTFIXES, Sign(LBRACKET, "[", us));
      hide ExprLine;
      ObjectReads(g, o.obj, LBRACKET, "[", us);
      BracketEnds(g, o.index, column);
      ExprRead(g, o.index, comma);
      ColumnMore(g, o.obj, us, o.index, column, i, tail);
    } else {
      var us := InsideLine(o, comma);
      assert ExprLine(e, tail) == Operand(o.obj, POSTFIXES, Sign(LBRACKET, "[", us));
      hide ExprLine, InsideLine;
      ObjectReads(g, o.obj, LBRACKET, "[", us);
      OtherSignIsCalm(g, COMMA, ",", column);
      InsideReads(g, o, comma);
      ColumnMore(g, o.obj, us, Range(o.start, o.end, false), column, i, tail);
    }
  }

  // ----- primary forms -----

  lemma {:induction false} PrimaryReads(g: Grammar, e: Expr, tail: Tokens)
    requires Level(e) == PRIMARIES && Writable(g, e) && Stops(g, e, PRIMARIES, tail)
    ensures SameAs(ParseAt(g, PRIMARIES, Operand(e, PRIMARIES, tail)), LoopAt(g, PRIMARIES, e, tail))
    decreases e, 10
  {
    hide Grammar.ParsePrimary, Calm, ExprsLine, InitsLine, Grammar.ParseElements, Grammar.ParseInits;
    match e
    case Ident(name) => IdentRead(g, name, tail);
    case Array(es) =>
      ElementsRead(g, es, Sign(RBRACKET, "]", tail));
      ArrayRead(g, ExprsLine(es, Sign(RBRACKET, "]", tail)), es, tail);
    case Struct(name, fs) =>
      var us := InitsLine(fs, Sign(RBRACE, "}", tail));
      InitsRead(g, fs, Sign(RBRACE, "}", tail));
      if |fs| > 0 { InitsStart(fs, Sign(RBRACE, "}", tail)); }
      StructRead(g, name, us, fs, tail);
    case _ => LiteralRead(g, e, tail);
  }

  lemma InitsStart(fs: seq<Init>, tail: Tokens)
    requires |fs| > 0 && tail.Type() == RBRACE
    ensures InitsLine(fs, tail).Type() == IDENT && InitsLine(fs, tail).Next() in {COLON, COMMA, RBRACE}
  {}

  lemma {:induction false} ClosurePrimary(g: Grammar, e: Expr, tail: Tokens)
    requires e.Closure? && Writable(g, e) && Calm(g, tail) && Rank(tail.Type()) == 0
    ensures Yields(g.ParsePrimary(ExprLine(e, tail)), tail, e)
    decreases e, 10
  {
    hide Grammar.ParsePrimary, Calm, ParamsLine, Grammar.ParseParams, Grammar.ParseExpr;
    var us := ExprLine(e.body, tail);
    var ts := ParamsLine(e.params, Sign(PIPE, "|", us));
    assert ExprLine(e, tail) == Sign(PIPE, "|", ts);
    hide ExprLine;
    ParamsRead(g, e.params, Sign(PIPE, "|", us));
    ExprRead(g, e.body, tail);
    ExprStart(g, e.body, tail);
    ClosureRead(g, ts, e.params, us, e.body, tail);
  }

  // ----- lists -----

  /** What follows an item of a list. */
  lemma ItemEnds(g: Grammar, e: Expr, tail: Tokens)
    requires tail.Type() in {COMMA, RPAREN, RBRACKET, RBRACE}
    ensures Ends(g, e, tail)
  {}

  lemma {:induction false} ElementsRead(g: Grammar, es: seq<Expr>, tail: Tokens)
    requires (forall x :: x in es ==> Writable(g, x)) && tail.Type() == RBRACKET
    ensures Yields(g.ParseElements(RBRACKET, ExprsLine(es, tail)), tail, es)
    decreases es, 0
  {
    hide Grammar.ParseElements, Grammar.ParseExpr, ExprLine, Writable, Ends;
    if |es| == 0 {
      ElementsNone(g, RBRACKET, tail);
    } else {
      assert es[0] in es;
      var more := ExprsLine(es[1..], tail);
      var next := if |es| == 1 then tail else Sign(COMMA, ",", more);
      ItemEnds(g, es[0], next);
      ExprStart(g, es[0], next);
      ExprRead(g, es[0], next);
      if |es| == 1 {
        assert es == [es[0]];
        ElementsLast(g, RBRACKET, ExprsLine(es, tail), es[0], tail);
      } else {
        ElementsRead(g, es[1..], tail);
        assert es == [es[0]] + es[1..];
        ElementsMore(g, RBRACKET, ExprsLine(es, tail), es[0], more, es[1..], tail);
      }
    }
  }

  lemma {:induction false} ArgsRead(g: Grammar, args: seq<Arg>, tail: Tokens)
    requires (forall a :: a in args ==> Writable(g, a.value)) && tail.Type() == RPAREN
    ensures Yields(g.ParseArgs(ArgsLine(args, tail)), tail, args)
    decreases args, 0
  {
    hide Grammar.ParseArgs, Grammar.ParseExpr, ArgLine, Writable, ReadsArg;
    if |args| == 0 {
      ArgsNone(g, tail);
    } else {
      assert args[0] in args;
      var more := ArgsLine(args[1..], tail);
      var next := if |args| == 1 then tail else Sign(COMMA, ",", more);
      ArgRead(g, args[0], next);
      if |args| == 1 {
        assert args == [args[0]];
        ArgsLast(g, ArgsLine(args, tail), args[0], tail);
      } else {
        ArgsRead(g, args[1..], tail);
        assert args == [args[0]] + args[1..];
        ArgsMore(g, ArgsLine(args, tail), args[0], more, args[1..], tail);
      }
    }
  }

  lemma {:induction false} ArgRead(g: Grammar, a: Arg, next: Tokens)
    requires Writable(g, a.value) && next.Type() in {COMMA, RPAREN}
    ensures ReadsArg(g, ArgLine(a, next), a, next)
    decreases a, 0
  {
    hide Grammar.ParseExpr, ExprLine, Writable, Ends;
    ItemEnds(g, a.value, next);
    ExprStart(g, a.value, next);
    NoColon(g, a.value, next);
    ExprRead(g, a.value, next);
  }

  lemma {:induction false} InitsRead(g: Grammar, fs: seq<Init>, tail: Tokens)
    requires (forall f :: f in fs && f.Init? ==> Writable(g, f.value)) && tail.Type() == RBRACE
    ensures Yields(g.ParseInits(InitsLine(fs, tail)), tail, fs)
    decreases fs, 0
  {
    hide Grammar.ParseInits, Grammar.ParseInit, InitLine, Writable;
    if |fs| == 0 {
      InitsNone(g, tail);
    } else {
      assert fs[0] in fs;
      var more := InitsLine(fs[1..], tail);
      var next := if |fs| == 1 then tail else Sign(COMMA, ",", more);
      OneInitRead(g, fs[0], next);
      if |fs| == 1 {
        assert fs == [fs[0]];
        InitsLast(g, InitsLine(fs, tail), fs[0], tail);
      } else {
        InitsRead(g, fs[1..], tail);
        assert fs == [fs[0]] + fs[1..];
        InitsMore(g, InitsLine(fs, tail), fs[0], more, fs[1..], tail);
      }
    }
  }

  lemma {:induction false} OneInitRead(g: Grammar, f: Init, next: Tokens)
    requires (f.Init? ==> Writable(g, f.value)) && next.Type() in {COMMA, RBRACE}
    ensures Yields(g.ParseInit(InitLine(f, next)), next, f) && InitLine(f, next).Type() == IDENT
    decreases f, 0
  {
    hide Grammar.ParseInit, Grammar.ParseExpr, ExprLine, Writable, Ends;
    match f
    case Shorthand(name) => ShorthandRead(g, name, next);
    case Init(name, v) =>
      ItemEnds(g, v, next);
      ExprRead(g, v, next);
      InitRead(g, name, ExprLine(v, next), v, next);
  }

  lemma {:induction false} ParamsRead(g: Grammar, ps: seq<Param>, tail: Tokens)
    requires (forall p :: p in ps && p.ann.Some? ==> WritableType(g, p.ann.value)) && tail.Type() == PIPE
    ensures Yields(g.ParseParams(ParamsLine(ps, tail)), tail, ps)
    decreases ps, 0
  {
    hide Grammar.ParseParams, Grammar.ParseParam, ParamLine, WritableType;
    if |ps| == 0 {
      ParamsNone(g, tail);
    } else {
      assert ps[0] in ps;
      var more := ParamsLine(ps[1..], tail);
      var next := if |ps| == 1 then tail else Sign(COMMA, ",", more);
      OneParamRead(g, ps[0], next);
      if |ps| == 1 {
        assert ps == [ps[0]];
        ParamsLast(g, ParamsLine(ps, tail), ps[0], tail);
      } else {
        ParamsRead(g, ps[1..], tail);
        assert ps == [ps[0]] + ps[1..];
        ParamsMore(g, ParamsLine(ps, tail), ps[0], more, ps[1..], tail);
      }
    }
  }

  lemma {:induction false} OneParamRead(g: Grammar, p: Param, next: Tokens)
    requires (p.ann.Some? ==> WritableType(g, p.ann.value)) && next.Type() in {COMMA, PIPE}
    ensures Yields(g.ParseParam(ParamLine(p, next)), next, p) && ParamLine(p, next).Type() == IDENT
    decreases p, 0
  {
    hide Grammar.ParseParam, Grammar.ParseType, TypeLine, WritableType;
    if p.ann.Some? {
      TypeRead(g, p.ann.value, next);
      ParamRead(g, p.name, TypeLine(p.ann.value, next), p.ann.value, next);
    } else {
      BareParamRead(g, p.name, next);
    }
  }

  lemma {:induction false} TypesRead(g: Grammar, types: seq<Type>, tail: Tokens)
    requires (forall t :: t in types ==> WritableType(g, t)) && tail.Type() == RPAREN
    ensures Yields(g.ParseTypes(TypesLine(types, tail)), tail, types)
    decreases types, 0
  {
    hide Grammar.ParseTypes, Grammar.ParseType, TypeLine, WritableType;
    if |types| == 0 {
      TypesNone(g, tail);
    } else {
      assert types[0] in types;
      var more := TypesLine(types[1..], tail);
      var next := if |types| == 1 then tail else Sign(COMMA, ",", more);
      TypeRead(g, types[0], next);
      TypeStart(g, types[0], next);
      if |types| == 1 {
        assert types == [types[0]];
        TypesLast(g, TypesLine(types, tail), types[0], tail);
      } else {
        TypesRead(g, types[1..], tail);
        assert types == [types[0]] + types[1..];
        TypesMore(g, TypesLine(types, tail), types[0], more, types[1..], tail);
      }
    }
  }

  // ----- types -----

  /** Every type that can be written is read back as it was. */
  lemma {:induction false} TypeRead(g: Grammar, t: Type, tail: Tokens)
    requires WritableType(g, t) && AfterType(tail)
    ensures Yields(g.ParseType(TypeLine(t, tail)), tail, t)
    decreases t, 10
  {
    hide Grammar.ParseType, Grammar.ParseTypes, Grammar.ParseExpr, ExprLine, TypesLine, NameLine, Writable;
    match t
    case Primitive(name) => PrimitiveRead(g, name, tail);
    case Enc(inner) =>
      TypeRead(g, inner, Sign(GT, ">", tail));
      EncRead(g, TypeLine(inner, Sign(GT, ">", tail)), inner, tail);
    case Vec(elem, size) => VectorRead(g, t, tail);
    case Mat(elem) =>
      TypeRead(g, elem, Sign(GT, ">", tail));
      MatRead(g, TypeLine(elem, Sign(GT, ">", tail)), elem, tail);
    case SizedMat(_, _, _) => MatrixRead(g, t, tail);
    case Fn(params, ret) =>
      var us := TypeLine(ret, tail);
      var end := Sign(RPAREN, ")", Sign(ARROW, "->", us));
      TypesRead(g, params, end);
      TypeRead(g, ret, tail);
      FnRead(g, TypesLine(params, end), params, us, ret, tail);
    case Tuple(elements) =>
      TypesRead(g, elements, Sign(RPAREN, ")", tail));
      TupleTypeRead(g, TypesLine(elements, Sign(RPAREN, ")", tail)), elements, tail);
    case Named(name, sub) => NamedRead(g, name, sub, tail);
  }

  lemma {:induction false} VectorRead(g: Grammar, t: Type, tail: Tokens)
    requires t.Vec? && WritableType(g, t) && tail.Type() != LPAREN
    ensures Yields(g.ParseType(TypeLine(t, tail)), tail, t)
    decreases t, 5
  {
    hide Grammar.ParseType, Grammar.ParseExpr, ExprLine, SizeLine, Writable, EndsCompared;
    var close := Sign(GT, ">", tail);
    if t.size.None? {
      TypeRead(g, t.elem, close);
      VecRead(g, TypeLine(t.elem, close), t.elem, tail);
    } else {
      var us := SizeLine(t.size.value, close);
      TypeRead(g, t.elem, Sign(COMMA, ",", us));
      SizeReads(g, t.size.value, tail);
      SizedVecRead(g, TypeLine(t.elem, Sign(COMMA, ",", us)), t.elem, us, t.size.value, tail);
    }
  }

  lemma {:induction false} SizeReads(g: Grammar, e: Expr, tail: Tokens)
    requires Writable(g, e) && Closes(e) && tail.Type() != LPAREN
    ensures Yields(g.ParseExpr(SizeLine(e, Sign(GT, ">", tail))), Sign(GT, ">", tail), e)
    decreases e, 95
  {
    hide Grammar.ParseType, Grammar.ParseExpr, ExprLine, TypeLine, EndsCompared, Operand, ParseAt, LoopAt, WritableType;
    hide Grammar.ParsePipe, Grammar.PipeLoop, Calm;
    var close := Sign(GT, ">", tail);
    if e.Cast? {
      var us := TypeLine(e.target, close);
      var s := Sign(PIPE_OP, "|>", Sign(AS, "as", us));
      var ts := Operand(e.expr, PIPES, s);
      OtherSignIsCalm(g, PIPE_OP, "|>", Sign(AS, "as", us));
      Reads(g, e.expr, PIPES, s);
      TypeRead(g, e.target, close);
      PipeAs(g, e.expr, us, close, e.target);
      OtherSignIsCalm(g, GT, ">", tail);
      LoopEnds(g, PIPES, e, close);
      AtPipe(g, e.expr, ts);
      AtPipe(g, e.expr, s);
      AtPipe(g, e, close);
      ExprIsPipe(g, ts);
    } else {
      CloseEnds(g, e, tail);
      ExprRead(g, e, close);
    }
  }

  lemma CloseEnds(g: Grammar, e: Expr, tail: Tokens)
    requires EndsCompared(e) && tail.Type() != LPAREN
    ensures Ends(g, e, Sign(GT, ">", tail))
  {}

  lemma {:induction false} MatrixRead(g: Grammar, t: Type, tail: Tokens)
    requires t.SizedMat? && WritableType(g, t)
    ensures Yields(g.ParseType(TypeLine(t, tail)), tail, t)
    decreases t, 5
  {
    hide Grammar.ParseType, Grammar.ParseExpr, ExprLine, Writable;
    var vs := ExprLine(t.cols, Sign(RBRACKET, "]", tail));
    var us := ExprLine(t.rows, Sign(COMMA, ",", vs));
    var close := Sign(GT, ">", Sign(LBRACKET, "[", us));
    TypeRead(g, t.elem, close);
    ItemEnds(g, t.rows, Sign(COMMA, ",", vs));
    ExprRead(g, t.rows, Sign(COMMA, ",", vs));
    ItemEnds(g, t.cols, Sign(RBRACKET, "]", tail));
    ExprRead(g, t.cols, Sign(RBRACKET, "]", tail));
    SizedMatRead(g, TypeLine(t.elem, close), t.elem, us, t.rows, vs, t.cols, tail);
  }
}
