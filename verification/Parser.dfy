/** The recursive-descent parser: it moves its position over the token list, splits `>>`
    in place, and goes back when an attempt to read type arguments fails. Every method is
    proved to return what the function of the same name in `Grammar` returns on the
    tokens left at its start, and to leave the list and the position where the function
    says: after the tokens consumed, with the inserted ones in the list. */
module Parser {
  import opened Lexing
  import opened G = Grammar
  import opened Syntax

  /** The tokens behind the position, the last one first. */
  function Backwards(ts: seq<Token>): Tokens {
    if |ts| == 0 then End else Cons(ts[|ts| - 1], Backwards(ts[..|ts| - 1]))
  }

  /** r's tokens, put behind the position one after the other. */
  function Push(past: Tokens, r: Rope): Tokens
    decreases r
  {
    match r
    case Empty => past
    case One(t) => Cons(t, past)
    case Cat(a, b) => Push(Push(past, a), b)
  }

  lemma Pushes()
    ensures forall past, a, b {:trigger Push(past, Join(a, b))} :: Push(past, Join(a, b)) == Push(Push(past, a), b)
    ensures forall past {:trigger Push(past, Nil())} :: Push(past, Nil()) == past
  {}

  lemma PushHead(past: Tokens, ts: Tokens)
    requires ts.Cons?
    ensures Push(past, Head(ts)) == Cons(ts.head, past)
  {}

  /** EOF is the last token, and only the last. */
  predicate Whole(ts: seq<Token>) {
    && |ts| > 0 && ts[|ts| - 1].Type() == EOF
    && forall i :: 0 <= i < |ts| - 1 ==> ts[i].Type() != EOF
  }

  lemma ListAt(ts: seq<Token>, pos: nat)
    requires Whole(ts) && pos < |ts|
    ensures ListOf(ts[pos..]) == if pos == |ts| - 1 then End else Cons(ts[pos], ListOf(ts[pos + 1..]))
  {
    assert ts[pos..][0] == ts[pos] && ts[pos..][1..] == ts[pos + 1..];
  }

  lemma BackwardsMore(ts: seq<Token>, pos: nat)
    requires pos < |ts|
    ensures Backwards(ts[..pos + 1]) == Cons(ts[pos], Backwards(ts[..pos]))
  {
    assert ts[..pos + 1][..pos] == ts[..pos];
  }

  // ----- going back -----

  function Length(ts: Tokens): nat {
    if ts.End? then 0 else 1 + Length(ts.tail)
  }

  lemma {:induction false} BackwardsLength(ts: seq<Token>)
    ensures Length(Backwards(ts)) == |ts|
  {
    if |ts| > 0 { BackwardsLength(ts[..|ts| - 1]); }
  }

  /** The last tokens of a list, put in front of another. */
  function Refill(past: Tokens, n: nat, ts: Tokens): Tokens
    requires n <= Length(past)
    decreases n
  {
    if n == 0 then ts else Refill(past.tail, n - 1, Cons(past.head, ts))
  }

  function Dropped(past: Tokens, n: nat): Tokens
    requires n <= Length(past)
    decreases n
  {
    if n == 0 then past else Dropped(past.tail, n - 1)
  }

  /** How many tokens a rope has. */
  function Size(r: Rope): nat {
    match r
    case Empty => 0
    case One(_) => 1
    case Cat(a, b) => Size(a) + Size(b)
  }

  lemma {:induction false} PushSize(past: Tokens, r: Rope)
    ensures Length(Push(past, r)) == Length(past) + Size(r)
    decreases r
  {
    match r
    case Empty =>
    case One(_) =>
    case Cat(a, b) =>
      PushSize(past, a);
      PushSize(Push(past, a), b);
  }

  lemma {:induction false} RefillMore(past: Tokens, m: nat, n: nat, ts: Tokens)
    requires m + n <= Length(past)
    ensures Length(Dropped(past, m)) == Length(past) - m
    ensures Refill(past, m + n, ts) == Refill(Dropped(past, m), n, Refill(past, m, ts))
    ensures Dropped(past, m + n) == Dropped(Dropped(past, m), n)
    decreases m
  {
    if m > 0 { RefillMore(past.tail, m - 1, n, Cons(past.head, ts)); }
  }

  /** Taking back what was pushed restores the list as the grammar says. */
  lemma {:induction false} PushBack(past: Tokens, r: Rope, ts: Tokens)
    ensures Size(r) <= Length(Push(past, r))
    ensures Refill(Push(past, r), Size(r), ts) == Restore(r, ts) && Dropped(Push(past, r), Size(r)) == past
    decreases r
  {
    PushSize(past, r);
    match r
    case Empty =>
    case One(_) =>
      assert Refill(past, 0, Cons(r.token, ts)) == Cons(r.token, ts);
    case Cat(a, b) =>
      var mid := Push(past, a);
      PushSize(past, a);
      PushSize(mid, b);
      PushBack(past, a, Restore(b, ts));
      PushBack(mid, b, ts);
      RefillMore(Push(mid, b), Size(b), Size(a), ts);
  }

  /** The tokens between two positions, in front of the list from the second. */
  lemma {:induction false} RefillList(ts: seq<Token>, lo: nat, hi: nat)
    requires Whole(ts) && lo <= hi < |ts|
    ensures hi - lo <= Length(Backwards(ts[..hi])) == hi
    ensures Refill(Backwards(ts[..hi]), hi - lo, ListOf(ts[hi..])) == ListOf(ts[lo..])
    ensures Dropped(Backwards(ts[..hi]), hi - lo) == Backwards(ts[..lo])
    decreases hi
  {
    BackwardsLength(ts[..hi]);
    if lo < hi {
      RefillList(ts, lo, hi - 1);
      BackwardsMore(ts, hi - 1);
      ListAt(ts, hi - 1);
    }
  }

  /** How far a loop has got: what is left of its work makes up the whole. */
  predicate Toward<T(==)>(past: Tokens, left: Parsed<T>, start: Tokens, whole: Parsed<T>) {
    Push(past, left.consumed) == Push(start, whole.consumed) && left.rest == whole.rest && left.val == whole.val
  }

  /** How far the loop over a qualified name has got. */
  predicate NameSoFar(before: Tokens, left: Parsed<string>, start: Tokens, whole: Parsed<string>, prefix: string) {
    && Push(before, left.consumed) == Push(start, whole.consumed) && left.rest == whole.rest
    && whole.val == if left.val.None? then None else Some(prefix + left.val.value)
  }

  lemma NameMore(before: Tokens, last: Token, here: Tokens, start: Tokens, whole: Parsed<string>, prefix: string)
    requires last.Type() == IDENT && here.Type() == COLONCOLON && here.Next() == IDENT
    requires NameSoFar(before, ParseName(Cons(last, here)), start, whole, prefix)
    ensures NameSoFar(Push(Push(before, Head(Cons(last, here))), Head(here)), ParseName(here.tail), start, whole,
        prefix + last.text + "::")
  {
    var r := ParseName(here.tail);
    var c := Join(Head(Cons(last, here)), Join(Head(here), r.consumed));
    assert ParseName(Cons(last, here))
        == Parsed(c, r.rest, if r.val.None? then None else Some(last.text + "::" + r.val.value));
    Pushes();
    hide ParseName, Push;
    if r.val.Some? { assert prefix + (last.text + "::" + r.val.value) == prefix + last.text + "::" + r.val.value; }
  }

  lemma RestoreHead(ts: Tokens)
    requires ts.Cons?
    ensures Restore(Head(ts), ts.tail) == ts
  {}

  /** How far a loop over a list has got. */
  predicate Adding<T(==)>(past: Tokens, left: Parsed<seq<T>>, start: Tokens, whole: Parsed<seq<T>>, acc: seq<T>) {
    && Push(past, left.consumed) == Push(start, whole.consumed) && left.rest == whole.rest
    && whole.val == if left.val.None? then None else Some(acc + left.val.value)
  }

  lemma AddingStarts<T>(past: Tokens, whole: Parsed<seq<T>>)
    ensures Adding(past, whole, past, whole, [])
  {
    if whole.val.Some? { assert [] + whole.val.value == whole.val.value; }
  }

  /** Nothing more to add. */
  lemma AddingEnds<T>(past: Tokens, m: Parsed<seq<T>>, start: Tokens, whole: Parsed<seq<T>>, acc: seq<T>)
    requires Adding(past, m, start, whole, acc) && m.consumed == Nil() && m.val == Some([])
    ensures past == Push(start, whole.consumed) && whole.rest == m.rest && whole.val == Some(acc)
  {
    assert acc + [] == acc;
  }

  /** One more item, and nothing after it. */
  lemma AddingLast<T>(past: Tokens, m: Parsed<seq<T>>, start: Tokens, whole: Parsed<seq<T>>, acc: seq<T>, item: T,
          now: Tokens)
    requires Adding(past, m, start, whole, acc) && Push(past, m.consumed) == now && m.val == Some([item] + [])
    ensures now == Push(start, whole.consumed) && whole.rest == m.rest && whole.val == Some(acc + [item])
  {
    assert [item] + [] == [item];
  }

  /** One more item, and a comma. */
  lemma AddingStep<T>(past: Tokens, m: Parsed<seq<T>>, start: Tokens, whole: Parsed<seq<T>>, acc: seq<T>, item: T,
                      now: Tokens, next: Parsed<seq<T>>)
    requires Adding(past, m, start, whole, acc) && Push(past, m.consumed) == Push(now, next.consumed)
    requires m.rest == next.rest && m.val == if next.val.None? then None else Some([item] + next.val.value)
    ensures Adding(now, next, start, whole, acc + [item])
  {
    if next.val.Some? { assert acc + ([item] + next.val.value) == acc + [item] + next.val.value; }
  }

  lemma AddingFails<T>(past: Tokens, m: Parsed<seq<T>>, start: Tokens, whole: Parsed<seq<T>>, acc: seq<T>, now: Tokens)
    requires Adding(past, m, start, whole, acc) && Push(past, m.consumed) == now && m.val.None?
    ensures now == Push(start, whole.consumed) && whole.rest == m.rest && whole.val.None?
  {}

  class Parser {
    const grammar: Grammar
    var tokens: seq<Token>
    var pos: nat

    constructor (grammar: Grammar, tokens: seq<Token>)
      requires Whole(tokens)
      ensures Valid() && this.grammar == grammar && this.tokens == tokens && pos == 0
      ensures Past() == End && Left() == ListOf(tokens)
    {
      this.grammar, this.tokens, pos := grammar, tokens, 0;
      assert tokens[0..] == tokens && tokens[..0] == [];
    }

    ghost predicate Valid()
      reads this
    {
      Whole(tokens) && pos < |tokens|
    }

    /** The tokens still to be read. */
    ghost function Left(): Tokens
      reads this
      requires Valid()
    {
      ListOf(tokens[pos..])
    }

    ghost function Past(): Tokens
      reads this
      requires Valid()
    {
      Backwards(tokens[..pos])
    }

    /** Where the parser stands. */
    ghost predicate Stands(past: Tokens, left: Tokens)
      reads this
    {
      Valid() && Past() == past && Left() == left
    }

    // ----- tokens -----

    method PeekType() returns (tt: TT)
      requires Valid()
      ensures tt == Left().Type()
    {
      ListAt(tokens, pos);
      tt := tokens[pos].Type();
    }

    /** The type of the token offset places on; beyond the end that is EOF. */
    method PeekTypeAt(offset: nat) returns (tt: TT)
      requires Valid() && offset > 0
      ensures offset == 1 ==> tt == Left().Next()
      ensures offset == 2 && Left().Cons? ==> tt == Left().tail.Next()
    {
      var at := pos + offset;
      ListAt(tokens, pos);
      if pos + 1 < |tokens| { ListAt(tokens, pos + 1); }
      if pos + 2 < |tokens| { ListAt(tokens, pos + 2); }
      tt := if at < |tokens| then tokens[at].Type() else tokens[|tokens| - 1].Type();
    }

    /** At EOF the position stays. */
    method Advance() returns (t: Token)
      requires Valid()
      modifies this
      ensures old(Left()).Cons? ==>
          t == old(Left()).head && Stands(Push(old(Past()), Head(old(Left()))), old(Left()).tail)
      ensures old(Left()).End? ==> t.Type() == EOF && Stands(old(Past()), End)
    {
      ListAt(tokens, pos);
      t := tokens[pos];
      if pos < |tokens| - 1 {
        BackwardsMore(tokens, pos);
        PushHead(Past(), Left());
        pos := pos + 1;
      }
    }

    method Expect(tt: TT) returns (t: Option<Token>)
      requires Valid() && tt != EOF && tt != GT && tt != FLOAT
      modifies this
      ensures var r := G.Expect(tt, old(Left()));
        Stands(Push(old(Past()), r.consumed), r.rest) && t == r.val
    {
      hide Parser.Past, Parser.Left, Push;
      Pushes();
      var here := PeekType();
      if here != tt {
        return None;
      }
      var taken := Advance();
      return Some(taken);
    }

    method Match(tt: TT) returns (matched: bool)
      requires Valid() && tt != EOF
      modifies this
      ensures matched == (old(Left()).Type() == tt)
      ensures matched ==> Stands(Push(old(Past()), Head(old(Left()))), old(Left()).tail)
      ensures !matched ==> Stands(old(Past()), old(Left()))
    {
      hide Parser.Past, Parser.Left, Push;
      var here := PeekType();
      if here == tt {
        var taken := Advance();
        return true;
      }
      return false;
    }

    /** `>>` is consumed as one token and its second half put back as another. */
    method InsertGt()
      requires Valid()
      modifies this
      ensures Stands(old(Past()), Cons(Token(GT, ">"), old(Left())))
    {
      ghost var was := tokens;
      tokens := tokens[..pos] + [Token(GT, ">")] + tokens[pos..];
      assert tokens[..pos] == was[..pos] && tokens[pos + 1..] == was[pos..];
      assert forall i :: 0 <= i < |was| ==> (i < pos ==> tokens[i] == was[i]) && (i >= pos ==> tokens[i + 1] == was[i]);
      ListAt(tokens, pos);
    }

    method ExpectGt() returns (ok: bool)
      requires Valid()
      modifies this
      ensures var r := G.ExpectGt(old(Left())); Stands(Push(old(Past()), r.consumed), r.rest) && ok == r.val.Some?
    {
      hide Parser.Past, Parser.Left, Push;
      Pushes();
      var matched := Match(GT);
      if matched {
        return true;
      }
      var here := PeekType();
      if here == SHR {
        var taken := Advance();
        InsertGt();
        return true;
      }
      return false;
    }

    /** self.pos = saved, after the tokens of r were read from there. */
    method Rewind(saved: nat, ghost past: Tokens, ghost r: Rope)
      requires Valid() && Past() == Push(past, r) && Length(past) == saved
      modifies this
      ensures Stands(past, Restore(r, old(Left())))
    {
      PushSize(past, r);
      BackwardsLength(tokens[..pos]);
      RefillList(tokens, saved, pos);
      PushBack(past, r, Left());
      pos := saved;
    }

    // ----- types -----

    /** parse_type */
    method ParseType() returns (t: Option<Type>)
      requires Valid()
      modifies this
      ensures var r := grammar.ParseType(old(Left())); Stands(Push(old(Past()), r.consumed), r.rest) && t == r.val
      decreases NonGt(Left()), 1
    {
      hide Parser.Past, Parser.Left, Push, Used, NonGt, Weight, FloatIn, FloatLeft, Restore, Grammar.ParseEnc;
      hide Grammar.ParseVec, Grammar.ParseMat, Grammar.ParseFn, Grammar.ParseTuple, Grammar.ParseNamed;
      Pushes();
      var tt := PeekType();
      if tt == EOF {
        return None;
      }
      if tt in PRIMITIVES {
        var name := Advance();
        return Some(Primitive(if name.Token? then name.text else ""));
      }
      if tt == ENC {
        t := ParseEnc();
      } else if tt == VEC {
        t := ParseVec();
      } else if tt == MAT {
        t := ParseMat();
      } else if tt == FN {
        t := ParseFn();
      } else if tt == LPAREN {
        t := ParseTuple();
      } else if tt == IDENT {
        t := ParseNamed();
      } else {
        t := None;
      }
    }

    method ParseEnc() returns (t: Option<Type>)
      requires Valid() && Left().Type() == ENC
      modifies this
      ensures var r := grammar.ParseEnc(old(Left())); Stands(Push(old(Past()), r.consumed), r.rest) && t == r.val
      decreases NonGt(Left()), 0
    {
      hide Parser.Past, Parser.Left, Push, Used, NonGt, Weight, FloatIn, FloatLeft, Restore, Grammar.ParseType;
      Pushes();
      var _ := Advance();
      var lt := Expect(LT);
      if lt.None? {
        return None;
      }
      var inner := ParseType();
      if inner.None? {
        return None;
      }
      var gt := ExpectGt();
      return if gt then Some(Enc(inner.value)) else None;
    }

    method ParseVec() returns (t: Option<Type>)
      requires Valid() && Left().Type() == VEC
      modifies this
      ensures var r := grammar.ParseVec(old(Left())); Stands(Push(old(Past()), r.consumed), r.rest) && t == r.val
      decreases NonGt(Left()), 0
    {
      hide Parser.Past, Parser.Left, Push, Used, NonGt, Weight, FloatIn, FloatLeft, Restore, Grammar.ParseType;
      hide Grammar.ParseExpr;
      Pushes();
      var _ := Advance();
      var lt := Expect(LT);
      if lt.None? {
        return None;
      }
      var elem := ParseType();
      if elem.None? {
        return None;
      }
      var size: Option<Expr> := None;
      var comma := Match(COMMA);
      if comma {
        size := ParseExpr();
        if size.None? {
          return None;
        }
      }
      var gt := ExpectGt();
      return if gt then Some(Vec(elem.value, size)) else None;
    }

    method ParseMat() returns (t: Option<Type>)
      requires Valid() && Left().Type() == MAT
      modifies this
      ensures var r := grammar.ParseMat(old(Left())); Stands(Push(old(Past()), r.consumed), r.rest) && t == r.val
      decreases NonGt(Left()), 0
    {
      hide Parser.Past, Parser.Left, Push, Used, NonGt, Weight, FloatIn, FloatLeft, Restore, Grammar.ParseType;
      hide Grammar.ParseMatSize;
      Pushes();
      var _ := Advance();
      var lt := Expect(LT);
      if lt.None? {
        return None;
      }
      var elem := ParseType();
      if elem.None? {
        return None;
      }
      var gt := ExpectGt();
      if !gt {
        return None;
      }
      var tt := PeekType();
      if tt == LBRACKET {
        t := ParseMatSize(elem.value);
      } else {
        t := Some(Mat(elem.value));
      }
    }

    /** `[rows, cols]` */
    method ParseMatSize(elem: Type) returns (t: Option<Type>)
      requires Valid() && Left().Type() == LBRACKET
      modifies this
      ensures var r := grammar.ParseMatSize(elem, old(Left()));
          Stands(Push(old(Past()), r.consumed), r.rest) && t == r.val
      decreases NonGt(Left()), 0
    {
      hide Parser.Past, Parser.Left, Push, Used, NonGt, Weight, FloatIn, FloatLeft, Restore, Grammar.ParseExpr;
      hide Grammar.ParseCols;
      Pushes();
      var _ := Advance();
      var rows := ParseExpr();
      if rows.None? {
        return None;
      }
      var comma := Expect(COMMA);
      if comma.None? {
        return None;
      }
      var cols := ParseCols();
      return if cols.None? then None else Some(SizedMat(elem, rows.value, cols.value));
    }

    /** An expression and the closing bracket. */
    method ParseCols() returns (e: Option<Expr>)
      requires Valid()
      modifies this
      ensures var r := grammar.ParseCols(old(Left())); Stands(Push(old(Past()), r.consumed), r.rest) && e == r.val
      decreases NonGt(Left()), 20
    {
      hide Parser.Past, Parser.Left, Push, Used, NonGt, Weight, FloatIn, FloatLeft, Restore, Grammar.ParseExpr;
      Pushes();
      e := ParseExpr();
      if e.None? {
        return;
      }
      var rb := Expect(RBRACKET);
      if rb.None? {
        e := None;
      }
    }

    method ParseFn() returns (t: Option<Type>)
      requires Valid() && Left().Type() == FN
      modifies this
      ensures var r := grammar.ParseFn(old(Left())); Stands(Push(old(Past()), r.consumed), r.rest) && t == r.val
      decreases NonGt(Left()), 0
    {
      hide Parser.Past, Parser.Left, Push, Used, NonGt, Weight, FloatIn, FloatLeft, Restore, Grammar.ParseType;
      hide Grammar.ParseTypes;
      Pushes();
      var _ := Advance();
      var lp := Expect(LPAREN);
      if lp.None? {
        return None;
      }
      var params := ParseTypes();
      if params.None? {
        return None;
      }
      var rp := Expect(RPAREN);
      if rp.None? {
        return None;
      }
      var arrow := Expect(ARROW);
      if arrow.None? {
        return None;
      }
      var ret := ParseType();
      return if ret.None? then None else Some(FnOf(params.value, ret.value));
    }

    method ParseTuple() returns (t: Option<Type>)
      requires Valid() && Left().Type() == LPAREN
      modifies this
      ensures var r := grammar.ParseTuple(old(Left())); Stands(Push(old(Past()), r.consumed), r.rest) && t == r.val
      decreases NonGt(Left()), 0
    {
      hide Parser.Past, Parser.Left, Push, Used, NonGt, Weight, FloatIn, FloatLeft, Restore, Grammar.ParseTypes;
      Pushes();
      var _ := Advance();
      var elems := ParseTypes();
      if elems.None? {
        return None;
      }
      var rp := Expect(RPAREN);
      return if rp.None? then None else Some(TupleOf(elems.value));
    }

    method ParseNamed() returns (t: Option<Type>)
      requires Valid() && Left().Type() == IDENT
      modifies this
      ensures var r := grammar.ParseNamed(old(Left())); Stands(Push(old(Past()), r.consumed), r.rest) && t == r.val
      decreases NonGt(Left()), 0
    {
      hide Parser.Past, Parser.Left, Push, Used, NonGt, Weight, FloatIn, FloatLeft, Restore, ParseName;
      Pushes();
      var name := ParseQualifiedName();
      if name.None? {
        return None;
      }
      var dot := Match(DOT);
      if !dot {
        return Some(Named(name.value, None));
      }
      var sub := Expect(IDENT);
      return if sub.None? then None else Some(Named(name.value, Some(sub.value.text)));
    }

    /** Types separated by commas, up to a closing parenthesis. */
    method ParseTypes() returns (types: Option<seq<Type>>)
      requires Valid()
      modifies this
      ensures var r := grammar.ParseTypes(old(Left())); Stands(Push(old(Past()), r.consumed), r.rest) && types == r.val
      decreases NonGt(Left()), 20
    {
      hide Parser.Past, Parser.Left, Push, Used, NonGt, Weight, FloatIn, FloatLeft, Restore, Grammar.ParseType;
      hide TypesFloat, Adding;
      Pushes();
      ghost var past, left := Past(), Left();
      ghost var whole := grammar.ParseTypes(left);
      var acc: seq<Type> := [];
      AddingStarts(past, whole);
      while true
        invariant Valid()
        invariant Adding(Past(), grammar.ParseTypes(Left()), past, whole, acc)
        invariant NonGt(Left()) <= NonGt(left)
        decreases NonGt(Left())
      {
        ghost var p, m := Past(), grammar.ParseTypes(Left());
        var tt := PeekType();
        if tt == RPAREN {
          AddingEnds(p, m, past, whole, acc);
          return Some(acc);
        }
        var one := ParseType();
        if one.None? {
          AddingFails(p, m, past, whole, acc, Past());
          return None;
        }
        var item := one.value;
        var comma := Match(COMMA);
        if !comma {
          AddingLast(p, m, past, whole, acc, item, Past());
          return Some(acc + [item]);
        }
        AddingStep(p, m, past, whole, acc, item, Past(), grammar.ParseTypes(Left()));
        acc := acc + [item];
      }
    }

    /** parse_qualified_name */
    method ParseQualifiedName() returns (name: Option<string>)
      requires Valid()
      modifies this
      ensures var r := ParseName(old(Left())); Stands(Push(old(Past()), r.consumed), r.rest) && name == r.val
    {
      hide Parser.Past, Parser.Left, Push, Used, NonGt, Weight, FloatIn, FloatLeft, Restore;
      Pushes();
      ghost var past, left := Past(), Left();
      ghost var whole := ParseName(left);
      var first := Expect(IDENT);
      if first.None? {
        return None;
      }
      var text := first.value.text;
      ghost var before, prefix, last := past, "", first.value;
      assert prefix + text == text && left == Cons(last, Left());
      if whole.val.Some? { assert prefix + whole.val.value == whole.val.value; }
      while true
        invariant Valid() && last.Type() == IDENT && text == prefix + last.text
        invariant Past() == Push(before, Head(Cons(last, Left())))
        invariant NameSoFar(before, ParseName(Cons(last, Left())), past, whole, prefix)
        decreases Left()
      {
        var tt := PeekType();
        var next := PeekTypeAt(1);
        if tt != COLONCOLON || next != IDENT {
          return Some(text);
        }
        ghost var here := Left();
        NameMore(before, last, here, past, whole, prefix);
        var _ := Advance();
        before, prefix := Past(), prefix + last.text + "::";
        last := Left().head;
        var part := Advance();
        text := text + "::" + part.text;
      }
    }

    // ----- expressions, loosest first -----

    /** parse_expr */
    method ParseExpr() returns (e: Option<Expr>)
      requires Valid()
      modifies this
      ensures var r := grammar.ParseExpr(old(Left())); Stands(Push(old(Past()), r.consumed), r.rest) && e == r.val
      decreases NonGt(Left()), 19
    {
      hide Parser.Past, Parser.Left, Push, Used, NonGt, Weight, FloatIn, FloatLeft, Restore, Grammar.ParsePipe;
      Pushes();
      e := ParsePipe();
    }

    /** parse_pipe_expr */
    method ParsePipe() returns (e: Option<Expr>)
      requires Valid()
      modifies this
      ensures var r := grammar.ParsePipe(old(Left())); Stands(Push(old(Past()), r.consumed), r.rest) && e == r.val
      decreases NonGt(Left()), 18
    {
      hide Parser.Past, Parser.Left, Push, Used, NonGt, Weight, FloatIn, FloatLeft, Restore, Grammar.ParseRange;
      hide Grammar.ParseType;
      Pushes();
      var first := ParseRange();
      if first.None? {
        return None;
      }
      var left := first.value;
      ghost var past, here := Past(), Left();
      ghost var whole := grammar.PipeLoop(left, here);
      while true
        invariant Valid()
        invariant Toward(Past(), grammar.PipeLoop(left, Left()), past, whole)
        invariant NonGt(Left()) <= NonGt(here)
        decreases NonGt(Left())
      {
        var tt := PeekType();
        if tt != PIPE_OP {
          return Some(left);
        }
        var _ := Advance();
        var cast := Match(AS);
        if cast {
          var target := ParseType();
          if target.None? {
            return None;
          }
          left := Cast(left, target.value);
        } else {
          var right := ParseRange();
          if right.None? {
            return None;
          }
          left := Pipe(left, right.value);
        }
      }
    }

    /** parse_range_expr */
    method ParseRange() returns (e: Option<Expr>)
      requires Valid()
      modifies this
      ensures var r := grammar.ParseRange(old(Left())); Stands(Push(old(Past()), r.consumed), r.rest) && e == r.val
      decreases NonGt(Left()), 17
    {
      hide Parser.Past, Parser.Left, Push, Used, NonGt, Weight, FloatIn, FloatLeft, Restore, Grammar.ParseOr;
      Pushes();
      var left := ParseOr();
      if left.None? {
        return None;
      }
      var tt := PeekType();
      if tt != DOTDOT && tt != DOTDOTEQ {
        return left;
      }
      var _ := Advance();
      var right := ParseOr();
      return if right.None? then None else Some(Range(left.value, right.value, tt == DOTDOTEQ));
    }

    /** parse_or_expr */
    method ParseOr() returns (e: Option<Expr>)
      requires Valid()
      modifies this
      ensures var r := grammar.ParseOr(old(Left())); Stands(Push(old(Past()), r.consumed), r.rest) && e == r.val
      decreases NonGt(Left()), 16
    {
      hide Parser.Past, Parser.Left, Push, Used, NonGt, Weight, FloatIn, FloatLeft, Restore, Grammar.ParseAnd;
      Pushes();
      var first := ParseAnd();
      if first.None? {
        return None;
      }
      var left := first.value;
      ghost var past, here := Past(), Left();
      ghost var whole := grammar.OrLoop(left, here);
      while true
        invariant Valid()
        invariant Toward(Past(), grammar.OrLoop(left, Left()), past, whole)
        invariant NonGt(Left()) <= NonGt(here)
        decreases NonGt(Left())
      {
        var tt := PeekType();
        if tt != OR {
          return Some(left);
        }
        var _ := Advance();
        var right := ParseAnd();
        if right.None? {
          return None;
        }
        left := Binary("||", left, right.value);
      }
    }

    /** parse_and_expr */
    method ParseAnd() returns (e: Option<Expr>)
      requires Valid()
      modifies this
      ensures var r := grammar.ParseAnd(old(Left())); Stands(Push(old(Past()), r.consumed), r.rest) && e == r.val
      decreases NonGt(Left()), 15
    {
      hide Parser.Past, Parser.Left, Push, Used, NonGt, Weight, FloatIn, FloatLeft, Restore, Grammar.ParseEq;
      Pushes();
      var first := ParseEq();
      if first.None? {
        return None;
      }
      var left := first.value;
      ghost var past, here := Past(), Left();
      ghost var whole := grammar.AndLoop(left, here);
      while true
        invariant Valid()
        invariant Toward(Past(), grammar.AndLoop(left, Left()), past, whole)
        invariant NonGt(Left()) <= NonGt(here)
        decreases NonGt(Left())
      {
        var tt := PeekType();
        if tt != AND {
          return Some(left);
        }
        var _ := Advance();
        var right := ParseEq();
        if right.None? {
          return None;
        }
        left := Binary("&&", left, right.value);
      }
    }

    /** parse_eq_expr */
    method ParseEq() returns (e: Option<Expr>)
      requires Valid()
      modifies this
      ensures var r := grammar.ParseEq(old(Left())); Stands(Push(old(Past()), r.consumed), r.rest) && e == r.val
      decreases NonGt(Left()), 14
    {
      hide Parser.Past, Parser.Left, Push, Used, NonGt, Weight, FloatIn, FloatLeft, Restore, Grammar.ParseCmp;
      Pushes();
      var left := ParseCmp();
      if left.None? {
        return None;
      }
      var tt := PeekType();
      if tt !in {EQ_EQ, BANG_EQ, TILDE_EQ} {
        return left;
      }
      var op := Advance();
      var right := ParseCmp();
      return if right.None? then None else Some(Binary(op.Word(), left.value, right.value));
    }

    /** parse_cmp_expr */
    method ParseCmp() returns (e: Option<Expr>)
      requires Valid()
      modifies this
      ensures var r := grammar.ParseCmp(old(Left())); Stands(Push(old(Past()), r.consumed), r.rest) && e == r.val
      decreases NonGt(Left()), 13
    {
      hide Parser.Past, Parser.Left, Push, Used, NonGt, Weight, FloatIn, FloatLeft, Restore, Grammar.ParseAdd;
      hide Grammar.ParseShift;
      Pushes();
      var left := ParseShift();
      if left.None? {
        return None;
      }
      var tt := PeekType();
      if tt !in {LT, GT, LT_EQ, GT_EQ} {
        return left;
      }
      var op := Advance();
      var right := ParseAdd();
      return if right.None? then None else Some(Binary(op.Word(), left.value, right.value));
    }

    /** parse_shift_expr */
    method ParseShift() returns (e: Option<Expr>)
      requires Valid()
      modifies this
      ensures var r := grammar.ParseShift(old(Left())); Stands(Push(old(Past()), r.consumed), r.rest) && e == r.val
      decreases NonGt(Left()), 12
    {
      hide Parser.Past, Parser.Left, Push, Used, NonGt, Weight, FloatIn, FloatLeft, Restore, Grammar.ParseAdd;
      Pushes();
      var first := ParseAdd();
      if first.None? {
        return None;
      }
      var left := first.value;
      ghost var past, here := Past(), Left();
      ghost var whole := grammar.ShiftLoop(left, here);
      while true
        invariant Valid()
        invariant Toward(Past(), grammar.ShiftLoop(left, Left()), past, whole)
        invariant NonGt(Left()) <= NonGt(here)
        decreases NonGt(Left())
      {
        var tt := PeekType();
        if tt !in {SHL, SHR} {
          return Some(left);
        }
        var op := Advance();
        var right := ParseAdd();
        if right.None? {
          return None;
        }
        left := Binary(op.Word(), left, right.value);
      }
    }

    /** parse_add_expr */
    method ParseAdd() returns (e: Option<Expr>)
      requires Valid()
      modifies this
      ensures var r := grammar.ParseAdd(old(Left())); Stands(Push(old(Past()), r.consumed), r.rest) && e == r.val
      decreases NonGt(Left()), 11
    {
      hide Parser.Past, Parser.Left, Push, Used, NonGt, Weight, FloatIn, FloatLeft, Restore, Grammar.ParseMul;
      Pushes();
      var first := ParseMul();
      if first.None? {
        return None;
      }
      var left := first.value;
      ghost var past, here := Past(), Left();
      ghost var whole := grammar.AddLoop(left, here);
      while true
        invariant Valid()
        invariant Toward(Past(), grammar.AddLoop(left, Left()), past, whole)
        invariant NonGt(Left()) <= NonGt(here)
        decreases NonGt(Left())
      {
        var tt := PeekType();
        if tt !in {PLUS, MINUS} {
          return Some(left);
        }
        var op := Advance();
        var right := ParseMul();
        if right.None? {
          return None;
        }
        left := Binary(op.Word(), left, right.value);
      }
    }

    /** parse_mul_expr */
    method ParseMul() returns (e: Option<Expr>)
      requires Valid()
      modifies this
      ensures var r := grammar.ParseMul(old(Left())); Stands(Push(old(Past()), r.consumed), r.rest) && e == r.val
      decreases NonGt(Left()), 10
    {
      hide Parser.Past, Parser.Left, Push, Used, NonGt, Weight, FloatIn, FloatLeft, Restore, Grammar.ParsePow;
      Pushes();
      var first := ParsePow();
      if first.None? {
        return None;
      }
      var left := first.value;
      ghost var past, here := Past(), Left();
      ghost var whole := grammar.MulLoop(left, here);
      while true
        invariant Valid()
        invariant Toward(Past(), grammar.MulLoop(left, Left()), past, whole)
        invariant NonGt(Left()) <= NonGt(here)
        decreases NonGt(Left())
      {
        var tt := PeekType();
        if tt !in {STAR, SLASH, PERCENT, STAR_NORELIN} {
          return Some(left);
        }
        var op := Advance();
        var right := ParsePow();
        if right.None? {
          return None;
        }
        left := Binary(op.Word(), left, right.value);
      }
    }

    /** parse_pow_expr */
    method ParsePow() returns (e: Option<Expr>)
      requires Valid()
      modifies this
      ensures var r := grammar.ParsePow(old(Left())); Stands(Push(old(Past()), r.consumed), r.rest) && e == r.val
      decreases NonGt(Left()), 9
    {
      hide Parser.Past, Parser.Left, Push, Used, NonGt, Weight, FloatIn, FloatLeft, Restore, Grammar.ParseUnary;
      Pushes();
      var base := ParseUnary();
      if base.None? {
        return None;
      }
      var caret := Match(CARET);
      if !caret {
        return base;
      }
      var exp := ParsePow();
      return if exp.None? then None else Some(Binary("^", base.value, exp.value));
    }

    /** parse_unary_expr */
    method ParseUnary() returns (e: Option<Expr>)
      requires Valid()
      modifies this
      ensures var r := grammar.ParseUnary(old(Left())); Stands(Push(old(Past()), r.consumed), r.rest) && e == r.val
      decreases NonGt(Left()), 8
    {
      hide Parser.Past, Parser.Left, Push, Used, NonGt, Weight, FloatIn, FloatLeft, Restore, Grammar.ParseCast;
      Pushes();
      var tt := PeekType();
      if tt != MINUS && tt != BANG {
        e := ParseCast();
        return;
      }
      var op := Advance();
      var operand := ParseUnary();
      return if operand.None? then None else Some(Unary(op.Word(), operand.value));
    }

    /** parse_cast_expr */
    method ParseCast() returns (e: Option<Expr>)
      requires Valid()
      modifies this
      ensures var r := grammar.ParseCast(old(Left())); Stands(Push(old(Past()), r.consumed), r.rest) && e == r.val
      decreases NonGt(Left()), 7
    {
      hide Parser.Past, Parser.Left, Push, Used, NonGt, Weight, FloatIn, FloatLeft, Restore, Grammar.ParsePostfix;
      hide Grammar.ParseType;
      Pushes();
      e := ParsePostfix();
      if e.None? {
        return;
      }
      var cast := Match(AS);
      if cast {
        var target := ParseType();
        e := if target.None? then None else Some(Cast(e.value, target.value));
      }
    }

    // ----- postfix forms -----

    /** _try_turbofish, at a `<`: on failure the position goes back, but not the token
        that splitting a `>>` put there. */
    method TryTurbofish() returns (arg: Option<Type>)
      requires Valid() && Left().Type() == LT
      modifies this
      ensures var f := grammar.TryTurbofish(old(Left())); Stands(Push(old(Past()), f.consumed), f.rest) && arg == f.arg
      decreases NonGt(Left()), 0
    {
      hide Parser.Past, Parser.Left, Push, Used, NonGt, Weight, FloatIn, FloatLeft, Restore, Grammar.ParseType;
      Pushes();
      var saved := pos;
      ghost var past, left := Past(), Left();
      PastLength();
      var _ := Advance();
      var tt := PeekType();
      if tt !in TYPE_STARTS {
        RestoreHead(left);
        Rewind(saved, past, Head(left));
        return None;
      }
      ghost var typed := grammar.ParseType(left.tail);
      var t := ParseType();
      if t.None? {
        Rewind(saved, past, Join(Head(left), typed.consumed));
        return None;
      }
      ghost var closed := G.ExpectGt(typed.rest);
      var gt := ExpectGt();
      var next := PeekType();
      if gt && next == LPAREN {
        return t;
      }
      Rewind(saved, past, Join(Join(Head(left), typed.consumed), closed.consumed));
      return None;
    }

    ghost method PastLength()
      requires Valid()
      ensures Length(Past()) == pos
    {
      BackwardsLength(tokens[..pos]);
    }

    /** parse_postfix_expr */
    method ParsePostfix() returns (e: Option<Expr>)
      requires Valid()
      modifies this
      ensures var r := grammar.ParsePostfix(old(Left())); Stands(Push(old(Past()), r.consumed), r.rest) && e == r.val
      decreases NonGt(Left()), 6
    {
      hide Parser.Past, Parser.Left, Push, Used, NonGt, Weight, FloatIn, FloatLeft, Restore, Grammar.ParsePrimary;
      hide Grammar.ParseMember, Grammar.ParseIndex, Grammar.ParseCall, Grammar.TryTurbofish;
      Pushes();
      var first := ParsePrimary();
      if first.None? {
        return None;
      }
      var expr := first.value;
      ghost var past, here := Past(), Left();
      ghost var whole := grammar.PostfixLoop(expr, here);
      while true
        invariant Valid()
        invariant Toward(Past(), grammar.PostfixLoop(expr, Left()), past, whole)
        invariant NonGt(Left()) <= NonGt(here)
        decreases NonGt(Left())
      {
        var tt := PeekType();
        var next;
        if tt == DOT {
          next := ParseMember(expr);
        } else if tt == LBRACKET {
          next := ParseIndex(expr);
        } else if tt == LT && expr.Ident? {
          var arg := TryTurbofish();
          if arg.None? {
            return Some(expr);
          }
          next := ParseCall(expr, AddType(arg.value, []));
        } else if tt == LPAREN {
          next := ParseCall(expr, []);
        } else {
          return Some(expr);
        }
        if next.None? {
          return None;
        }
        expr := next.value;
      }
    }

    /** `.name` or `.name(args)` */
    method ParseMember(obj: Expr) returns (e: Option<Expr>)
      requires Valid() && Left().Type() == DOT
      modifies this
      ensures var r := grammar.ParseMember(obj, old(Left()));
          Stands(Push(old(Past()), r.consumed), r.rest) && e == r.val
      decreases NonGt(Left()), 3
    {
      hide Parser.Past, Parser.Left, Push, Used, NonGt, Weight, FloatIn, FloatLeft, Restore, Grammar.ParseArgs;
      Pushes();
      var _ := Advance();
      var name := Expect(IDENT);
      if name.None? {
        return None;
      }
      var open := Match(LPAREN);
      if !open {
        return Some(Field(obj, name.value.text));
      }
      var args := ParseArgs();
      if args.None? {
        return None;
      }
      var rp := Expect(RPAREN);
      return if rp.None? then None else Some(MethodOf(obj, name.value.text, args.value));
    }

    /** `(args)` */
    method ParseCall(func: Expr, typeArgs: seq<Type>) returns (e: Option<Expr>)
      requires Valid() && Left().Type() == LPAREN
      modifies this
      ensures var r := grammar.ParseCall(func, typeArgs, old(Left()));
          Stands(Push(old(Past()), r.consumed), r.rest) && e == r.val
      decreases NonGt(Left()), 3
    {
      hide Parser.Past, Parser.Left, Push, Used, NonGt, Weight, FloatIn, FloatLeft, Restore, Grammar.ParseArgs;
      Pushes();
      var _ := Advance();
      var args := ParseArgs();
      if args.None? {
        return None;
      }
      var rp := Expect(RPAREN);
      return if rp.None? then None else Some(CallOf(func, args.value, typeArgs));
    }

    /** `[i]`, `[i, j]`, `[a..b]` or `[a..b, j]` */
    method ParseIndex(obj: Expr) returns (e: Option<Expr>)
      requires Valid() && Left().Type() == LBRACKET
      modifies this
      ensures var r := grammar.ParseIndex(obj, old(Left())); Stands(Push(old(Past()), r.consumed), r.rest) && e == r.val
      decreases NonGt(Left()), 3
    {
      hide Parser.Past, Parser.Left, Push, Used, NonGt, Weight, FloatIn, FloatLeft, Restore, Grammar.ParseExpr;
      hide Grammar.ParseCols, Grammar.Indexed;
      Pushes();
      var _ := Advance();
      var idx := ParseExpr();
      if idx.None? {
        return None;
      }
      var first := grammar.Indexed(obj, idx.value);
      var comma := Match(COMMA);
      if comma {
        var col := ParseCols();
        return if col.None? then None else Some(Index(first, col.value));
      }
      var rb := Expect(RBRACKET);
      return if rb.None? then None else Some(first);
    }

    /** _is_named_arg */
    method IsNamedArg() returns (named: bool)
      requires Valid()
      ensures named == grammar.IsNamedArg(Left())
    {
      hide Parser.Past, Parser.Left;
      var next := PeekTypeAt(1);
      if next != COLON {
        return false;
      }
      var tt := PeekType();
      return tt in {IDENT, DOMAIN, SCHEME, WIRE};
    }

    /** parse_arg_list */
    method ParseArgs() returns (args: Option<seq<Arg>>)
      requires Valid()
      modifies this
      ensures var r := grammar.ParseArgs(old(Left())); Stands(Push(old(Past()), r.consumed), r.rest) && args == r.val
      decreases NonGt(Left()), 20
    {
      hide Parser.Past, Parser.Left, Push, Used, NonGt, Weight, FloatIn, FloatLeft, Restore, Grammar.ParseExpr;
      hide ArgsFloat, Adding;
      Pushes();
      ghost var past, left := Past(), Left();
      ghost var whole := grammar.ParseArgs(left);
      var acc: seq<Arg> := [];
      AddingStarts(past, whole);
      while true
        invariant Valid()
        invariant Adding(Past(), grammar.ParseArgs(Left()), past, whole, acc)
        invariant NonGt(Left()) <= NonGt(left)
        decreases NonGt(Left())
      {
        ghost var p, m := Past(), grammar.ParseArgs(Left());
        var tt := PeekType();
        if tt == RPAREN {
          AddingEnds(p, m, past, whole, acc);
          return Some(acc);
        }
        var named := IsNamedArg();
        var name := "";
        if named {
          var word := Advance();
          var _ := Advance();
          name := word.Word();
        }
        var v := ParseExpr();
        if v.None? {
          AddingFails(p, m, past, whole, acc, Past());
          return None;
        }
        var item := if named then Keyword(name, v.value) else Positional(v.value);
        var comma := Match(COMMA);
        if !comma {
          AddingLast(p, m, past, whole, acc, item, Past());
          return Some(acc + [item]);
        }
        AddingStep(p, m, past, whole, acc, item, Past(), grammar.ParseArgs(Left()));
        acc := acc + [item];
      }
    }

    // ----- primary forms -----

    /** parse_primary_expr */
    method ParsePrimary() returns (e: Option<Expr>)
      requires Valid()
      modifies this
      ensures var r := grammar.ParsePrimary(old(Left())); Stands(Push(old(Past()), r.consumed), r.rest) && e == r.val
      decreases NonGt(Left()), 5
    {
      hide Parser.Past, Parser.Left, Push, Used, NonGt, Weight, FloatIn, FloatLeft, Restore, Grammar.ParseClosure;
      hide Grammar.ParseParen, Grammar.ParseIdent, Grammar.ParseElements;
      Pushes();
      var tt := PeekType();
      var next := PeekTypeAt(1);
      if tt == EOF {
        return None;
      }
      if tt in {PLUS, MINUS, STAR} && next in {COMMA, RPAREN} {
        var op := Advance();
        return Some(Ident("op_" + op.Word()));
      }
      if tt in {INT, FLOAT, STRING, TRUE, FALSE, SCHEME, WIRE, DOMAIN} {
        e := ParseSimple();
      } else if tt == PIPE {
        e := ParseClosure();
      } else if tt == LBRACKET {
        e := ParseArray();
      } else if tt == LPAREN {
        e := ParseParen();
      } else if tt == IDENT {
        e := ParseIdent();
      } else {
        e := None;
      }
    }

    /** A literal, or a keyword that may be a name. */
    method ParseSimple() returns (e: Option<Expr>)
      requires Valid() && Left().Type() in {INT, FLOAT, STRING, TRUE, FALSE, SCHEME, WIRE, DOMAIN}
      modifies this
      ensures var r := grammar.ParsePrimary(old(Left())); Stands(Push(old(Past()), r.consumed), r.rest) && e == r.val
      decreases NonGt(Left()), 4
    {
      hide Parser.Past, Parser.Left, Push, Used, NonGt, Weight, FloatIn, FloatLeft, Restore, Grammar.ParseClosure;
      hide Grammar.ParseParen, Grammar.ParseIdent, Grammar.ParseElements;
      Pushes();
      var tt := PeekType();
      if tt == INT {
              var here := Current();
        if !here.IntToken? {
          return None;
        }
      }
      var t := Advance();
      if tt == INT {
        e := Some(IntLiteral(t.n));
      } else if tt == FLOAT {
        e := Some(FloatLiteral(t.text));
      } else if tt == STRING {
        e := Some(StringLiteral(t.text));
      } else if tt == TRUE {
        e := Some(BoolLiteral(true));
      } else if tt == FALSE {
        e := Some(BoolLiteral(false));
      } else {
        e := Some(Ident(t.text));
      }
    }

    method Current() returns (t: Token)
      requires Valid() && Left().Cons?
      ensures t == Left().head
    {
      ListAt(tokens, pos);
      t := tokens[pos];
    }

    /** parse_array_literal */
    method ParseArray() returns (e: Option<Expr>)
      requires Valid() && Left().Type() == LBRACKET
      modifies this
      ensures var r := grammar.ParsePrimary(old(Left())); Stands(Push(old(Past()), r.consumed), r.rest) && e == r.val
      decreases NonGt(Left()), 4
    {
      hide Parser.Past, Parser.Left, Push, Used, NonGt, Weight, FloatIn, FloatLeft, Restore, Grammar.ParseClosure;
      hide Grammar.ParseParen, Grammar.ParseIdent, Grammar.ParseElements;
      Pushes();
      var _ := Advance();
      var elems := ParseElements(RBRACKET);
      if elems.None? {
        return None;
      }
      var rb := Expect(RBRACKET);
      return if rb.None? then None else Some(ArrayOf(elems.value));
    }

    /** A grouping, or a tuple read as an array. */
    method ParseParen() returns (e: Option<Expr>)
      requires Valid() && Left().Type() == LPAREN
      modifies this
      ensures var r := grammar.ParseParen(old(Left())); Stands(Push(old(Past()), r.consumed), r.rest) && e == r.val
      decreases NonGt(Left()), 0
    {
      hide Parser.Past, Parser.Left, Push, Used, NonGt, Weight, FloatIn, FloatLeft, Restore, Grammar.ParseExpr;
      hide Grammar.ParseElements;
      Pushes();
      var _ := Advance();
      var first := ParseExpr();
      if first.None? {
        return None;
      }
      var comma := Match(COMMA);
      if comma {
        var more := ParseElements(RPAREN);
        if more.None? {
          return None;
        }
        var close := Expect(RPAREN);
        return if close.None? then None else Some(ArrayOf(AddExpr(first.value, more.value)));
      }
      var rp := Expect(RPAREN);
      return if rp.None? then None else first;
    }

    /** Expressions separated by commas, up to a closing token. */
    method ParseElements(close: TT) returns (es: Option<seq<Expr>>)
      requires Valid()
      modifies this
      ensures var r := grammar.ParseElements(close, old(Left()));
          Stands(Push(old(Past()), r.consumed), r.rest) && es == r.val
      decreases NonGt(Left()), 20
    {
      hide Parser.Past, Parser.Left, Push, Used, NonGt, Weight, FloatIn, FloatLeft, Restore, Grammar.ParseExpr;
      hide ExprsFloat, Adding;
      Pushes();
      ghost var past, left := Past(), Left();
      ghost var whole := grammar.ParseElements(close, left);
      var acc: seq<Expr> := [];
      AddingStarts(past, whole);
      while true
        invariant Valid()
        invariant Adding(Past(), grammar.ParseElements(close, Left()), past, whole, acc)
        invariant NonGt(Left()) <= NonGt(left)
        decreases NonGt(Left())
      {
        ghost var p, m := Past(), grammar.ParseElements(close, Left());
        var tt := PeekType();
        if tt == close {
          AddingEnds(p, m, past, whole, acc);
          return Some(acc);
        }
        var one := ParseExpr();
        if one.None? {
          AddingFails(p, m, past, whole, acc, Past());
          return None;
        }
        var item := one.value;
        var comma := Match(COMMA);
        if !comma {
          AddingLast(p, m, past, whole, acc, item, Past());
          return Some(acc + [item]);
        }
        AddingStep(p, m, past, whole, acc, item, Past(), grammar.ParseElements(close, Left()));
        acc := acc + [item];
      }
    }

    /** A name, or a struct literal when what follows says so. */
    method ParseIdent() returns (e: Option<Expr>)
      requires Valid() && Left().Type() == IDENT
      modifies this
      ensures var r := grammar.ParseIdent(old(Left())); Stands(Push(old(Past()), r.consumed), r.rest) && e == r.val
      decreases NonGt(Left()), 0
    {
      hide Parser.Past, Parser.Left, Push, Used, NonGt, Weight, FloatIn, FloatLeft, Restore, Grammar.ParseInits;
      hide ParseName, UpperName;
      Pushes();
      var name := ParseQualifiedName();
      if name.None? {
        return None;
      }
      var tt := PeekType();
      var next := PeekTypeAt(1);
      var after := PeekTypeAt(2);
      if tt == LBRACE
         && (name.value in grammar.known ||
             (UpperName(name.value) && next == IDENT && after in {COLON, COMMA, RBRACE})) {
        var _ := Advance();
        var fields := ParseInits();
        if fields.None? {
          return None;
        }
        var rb := Expect(RBRACE);
        return if rb.None? then None else Some(StructOf(name.value, fields.value));
      }
      return Some(Ident(name.value));
    }

    /** The fields of a struct literal. */
    method ParseInits() returns (fields: Option<seq<Init>>)
      requires Valid()
      modifies this
      ensures var r := grammar.ParseInits(old(Left())); Stands(Push(old(Past()), r.consumed), r.rest) && fields == r.val
      decreases NonGt(Left()), 20
    {
      hide Parser.Past, Parser.Left, Push, Used, NonGt, Weight, FloatIn, FloatLeft, Restore, Grammar.ParseInit;
      hide InitsFloat, Adding;
      Pushes();
      ghost var past, left := Past(), Left();
      ghost var whole := grammar.ParseInits(left);
      var acc: seq<Init> := [];
      AddingStarts(past, whole);
      while true
        invariant Valid()
        invariant Adding(Past(), grammar.ParseInits(Left()), past, whole, acc)
        invariant NonGt(Left()) <= NonGt(left)
        decreases NonGt(Left())
      {
        ghost var p, m := Past(), grammar.ParseInits(Left());
        var tt := PeekType();
        if tt == RBRACE {
          AddingEnds(p, m, past, whole, acc);
          return Some(acc);
        }
        var one := ParseInit();
        if one.None? {
          AddingFails(p, m, past, whole, acc, Past());
          return None;
        }
        var item := one.value;
        var comma := Match(COMMA);
        if !comma {
          AddingLast(p, m, past, whole, acc, item, Past());
          return Some(acc + [item]);
        }
        AddingStep(p, m, past, whole, acc, item, Past(), grammar.ParseInits(Left()));
        acc := acc + [item];
      }
    }

    method ParseInit() returns (f: Option<Init>)
      requires Valid()
      modifies this
      ensures var r := grammar.ParseInit(old(Left())); Stands(Push(old(Past()), r.consumed), r.rest) && f == r.val
      decreases NonGt(Left()), 0
    {
      hide Parser.Past, Parser.Left, Push, Used, NonGt, Weight, FloatIn, FloatLeft, Restore, Grammar.ParseExpr;
      Pushes();
      var name := Expect(IDENT);
      if name.None? {
        return None;
      }
      var colon := Match(COLON);
      if !colon {
        return Some(Shorthand(name.value.text));
      }
      var v := ParseExpr();
      return if v.None? then None else Some(Init.Init(name.value.text, v.value));
    }

    /** parse_closure, with an expression for its body */
    method ParseClosure() returns (e: Option<Expr>)
      requires Valid() && Left().Type() == PIPE
      modifies this
      ensures var r := grammar.ParseClosure(old(Left())); Stands(Push(old(Past()), r.consumed), r.rest) && e == r.val
      decreases NonGt(Left()), 0
    {
      hide Parser.Past, Parser.Left, Push, Used, NonGt, Weight, FloatIn, FloatLeft, Restore, Grammar.ParseParams;
      hide Grammar.ParseExpr;
      Pushes();
      var _ := Advance();
      var params := ParseParams();
      if params.None? {
        return None;
      }
      var close := Expect(PIPE);
      if close.None? {
        return None;
      }
      var tt := PeekType();
      if tt == LBRACE {
        return None;
      }
      var body := ParseExpr();
      return if body.None? then None else Some(ClosureOf(params.value, body.value));
    }

    method ParseParams() returns (params: Option<seq<Param>>)
      requires Valid()
      modifies this
      ensures var r := grammar.ParseParams(old(Left()));
          Stands(Push(old(Past()), r.consumed), r.rest) && params == r.val
      decreases NonGt(Left()), 20
    {
      hide Parser.Past, Parser.Left, Push, Used, NonGt, Weight, FloatIn, FloatLeft, Restore, Grammar.ParseParam;
      hide ParamsFloat, Adding;
      Pushes();
      ghost var past, left := Past(), Left();
      ghost var whole := grammar.ParseParams(left);
      var acc: seq<Param> := [];
      AddingStarts(past, whole);
      while true
        invariant Valid()
        invariant Adding(Past(), grammar.ParseParams(Left()), past, whole, acc)
        invariant NonGt(Left()) <= NonGt(left)
        decreases NonGt(Left())
      {
        ghost var p, m := Past(), grammar.ParseParams(Left());
        var tt := PeekType();
        if tt == PIPE {
          AddingEnds(p, m, past, whole, acc);
          return Some(acc);
        }
        var one := ParseParam();
        if one.None? {
          AddingFails(p, m, past, whole, acc, Past());
          return None;
        }
        var item := one.value;
        var comma := Match(COMMA);
        if !comma {
          AddingLast(p, m, past, whole, acc, item, Past());
          return Some(acc + [item]);
        }
        AddingStep(p, m, past, whole, acc, item, Past(), grammar.ParseParams(Left()));
        acc := acc + [item];
      }
    }

    method ParseParam() returns (p: Option<Param>)
      requires Valid()
      modifies this
      ensures var r := grammar.ParseParam(old(Left())); Stands(Push(old(Past()), r.consumed), r.rest) && p == r.val
      decreases NonGt(Left()), 0
    {
      hide Parser.Past, Parser.Left, Push, Used, NonGt, Weight, FloatIn, FloatLeft, Restore, Grammar.ParseType;
      Pushes();
      var name := Expect(IDENT);
      if name.None? {
        return None;
      }
      var colon := Match(COLON);
      if !colon {
        return Some(Param(name.value.text, None));
      }
      var t := ParseType();
      return if t.None? then None else Some(Param(name.value.text, Some(t.value)));
    }
  }
}
