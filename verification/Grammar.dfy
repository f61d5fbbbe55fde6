/** What the recursive-descent parser reads, as functions of the tokens still to be
    read. A result says which tokens were consumed and which are left, both as the
    parser leaves them in its list: splitting `>>` inserts a token there, and a failed
    attempt to read type arguments leaves that token behind. */
module Grammar {
  import opened Lexing
  import opened Syntax

  /** The tokens left, up to the closing EOF. */
  datatype Tokens = End | Cons(head: Token, tail: Tokens) {
    function Type(): TT {
      if End? then EOF else head.Type()
    }

    /** The type of the token after the next. */
    function Next(): TT {
      if End? then EOF else tail.Type()
    }
  }

  /** The parser's list from some token on: the tokens up to EOF. */
  function ListOf(ts: seq<Token>): Tokens {
    if |ts| == 0 || ts[0].Type() == EOF then End else Cons(ts[0], ListOf(ts[1..]))
  }

  /** The tokens consumed, in order. */
  datatype Rope = Empty | One(token: Token) | Cat(first: Rope, second: Rope)

  datatype Parsed<+T> = Parsed(consumed: Rope, rest: Tokens, val: Option<T>)

  /** The tokens other than `>`: what every round of the parser uses up. */
  function NonGt(ts: Tokens): nat {
    match ts
    case End => 0
    case Cons(t, tail) => Weight(t) + NonGt(tail)
  }

  /** Whether a float literal is left to read. */
  predicate FloatLeft(ts: Tokens) {
    ts.Cons? && (ts.head.Type() == FLOAT || FloatLeft(ts.tail))
  }

  function Weight(t: Token): nat {
    if t.Type() == GT then 0 else 1
  }

  function Used(r: Rope): nat {
    match r
    case Empty => 0
    case One(t) => Weight(t)
    case Cat(a, b) => Used(a) + Used(b)
  }

  predicate FloatIn(r: Rope) {
    match r
    case Empty => false
    case One(t) => t.Type() == FLOAT
    case Cat(a, b) => FloatIn(a) || FloatIn(b)
  }

  function Nil(): (r: Rope)
    ensures Used(r) == 0 && !FloatIn(r)
  {
    Empty
  }

  function Join(a: Rope, b: Rope): (r: Rope)
    ensures Used(r) == Used(a) + Used(b)
    ensures FloatIn(r) <==> FloatIn(a) || FloatIn(b)
  {
    Cat(a, b)
  }

  /** The next token, taken. */
  function Head(ts: Tokens): (r: Rope)
    requires ts.Cons?
    ensures NonGt(ts) == Used(r) + NonGt(ts.tail)
    ensures FloatLeft(ts) <==> FloatIn(r) || FloatLeft(ts.tail)
    ensures Used(r) == if ts.Type() == GT then 0 else 1
    ensures FloatIn(r) <==> ts.Type() == FLOAT
  {
    One(ts.head)
  }

  /** The list with r put back in front. */
  function Restore(r: Rope, ts: Tokens): (s: Tokens)
    ensures NonGt(s) == Used(r) + NonGt(ts)
    ensures FloatLeft(s) <==> FloatIn(r) || FloatLeft(ts)
    decreases r
  {
    match r
    case Empty => ts
    case One(t) => Cons(t, ts)
    case Cat(a, b) => Restore(a, Restore(b, ts))
  }

  // ----- what every parsing function keeps -----

  /** No token is lost, `>` aside. */
  predicate Threads<T>(ts: Tokens, r: Parsed<T>) {
    && Used(r.consumed) + NonGt(r.rest) == NonGt(ts)
    && (FloatLeft(ts) <==> FloatIn(r.consumed) || FloatLeft(r.rest))
  }

  /** A success uses tokens up, and a float literal among them is in the tree. */
  predicate Reads(ts: Tokens, r: Parsed<Expr>) {
    && Threads(ts, r)
    && (r.val.Some? ==> Used(r.consumed) > 0 && (FloatIn(r.consumed) ==> r.val.value.HasFloat()))
  }

  predicate ReadsType(ts: Tokens, r: Parsed<Type>) {
    && Threads(ts, r)
    && (r.val.Some? ==> Used(r.consumed) > 0 && (FloatIn(r.consumed) ==> r.val.value.HasFloat()))
  }

  /** The same of a loop that goes on from a tree. */
  predicate GoesOn(left: Expr, ts: Tokens, r: Parsed<Expr>) {
    && Threads(ts, r)
    && (r.val.Some? && (FloatIn(r.consumed) || left.HasFloat()) ==> r.val.value.HasFloat())
  }

  predicate ArgsFloat(args: seq<Arg>) { exists a | a in args :: a.value.HasFloat() }
  predicate ExprsFloat(es: seq<Expr>) { exists e | e in es :: e.HasFloat() }
  predicate TypesFloat(types: seq<Type>) { exists t | t in types :: t.HasFloat() }
  predicate InitsFloat(fs: seq<Init>) { exists f | f in fs :: f.Init? && f.value.HasFloat() }
  predicate ParamsFloat(ps: seq<Param>) { exists p | p in ps :: p.ann.Some? && p.ann.value.HasFloat() }

  // ----- trees over lists, with the float literals in them -----

  function AddArg(a: Arg, more: seq<Arg>): (r: seq<Arg>)
    ensures r == [a] + more
    ensures a.value.HasFloat() || ArgsFloat(more) ==> ArgsFloat(r)
  {
    var all := [a] + more;
    assert a in all && forall x :: x in more ==> x in all;
    all
  }

  function AddExpr(e: Expr, more: seq<Expr>): (r: seq<Expr>)
    ensures r == [e] + more
    ensures e.HasFloat() || ExprsFloat(more) ==> ExprsFloat(r)
  {
    var all := [e] + more;
    assert e in all && forall x :: x in more ==> x in all;
    all
  }

  function AddType(t: Type, more: seq<Type>): (r: seq<Type>)
    ensures r == [t] + more
    ensures t.HasFloat() || TypesFloat(more) ==> TypesFloat(r)
  {
    var all := [t] + more;
    assert t in all && forall x :: x in more ==> x in all;
    all
  }

  function AddInit(f: Init, more: seq<Init>): (r: seq<Init>)
    ensures r == [f] + more
    ensures (f.Init? && f.value.HasFloat()) || InitsFloat(more) ==> InitsFloat(r)
  {
    var all := [f] + more;
    assert f in all && forall x :: x in more ==> x in all;
    all
  }

  function AddParam(p: Param, more: seq<Param>): (r: seq<Param>)
    ensures r == [p] + more
    ensures (p.ann.Some? && p.ann.value.HasFloat()) || ParamsFloat(more) ==> ParamsFloat(r)
  {
    var all := [p] + more;
    assert p in all && forall x :: x in more ==> x in all;
    all
  }

  function CallOf(func: Expr, args: seq<Arg>, typeArgs: seq<Type>): (r: Expr)
    ensures func.HasFloat() || ArgsFloat(args) || TypesFloat(typeArgs) ==> r.HasFloat()
  {
    Call(func, args, typeArgs)
  }

  function MethodOf(obj: Expr, name: string, args: seq<Arg>): (r: Expr)
    ensures obj.HasFloat() || ArgsFloat(args) ==> r.HasFloat()
  {
    Method(obj, name, args)
  }

  function ArrayOf(es: seq<Expr>): (r: Expr)
    ensures ExprsFloat(es) ==> r.HasFloat()
  {
    Array(es)
  }

  function StructOf(name: string, fs: seq<Init>): (r: Expr)
    ensures InitsFloat(fs) ==> r.HasFloat()
  {
    Struct(name, fs)
  }

  function ClosureOf(ps: seq<Param>, body: Expr): (r: Expr)
    ensures ParamsFloat(ps) || body.HasFloat() ==> r.HasFloat()
  {
    Closure(ps, body)
  }

  function FnOf(params: seq<Type>, ret: Type): (r: Type)
    ensures TypesFloat(params) || ret.HasFloat() ==> r.HasFloat()
  {
    Fn(params, ret)
  }

  function TupleOf(ts: seq<Type>): (r: Type)
    ensures TypesFloat(ts) ==> r.HasFloat()
  {
    Tuple(ts)
  }

  // ----- tokens -----

  function Fail<T>(consumed: Rope, rest: Tokens): Parsed<T> {
    Parsed(consumed, rest, None)
  }

  function Expect(tt: TT, ts: Tokens): (r: Parsed<Token>)
    requires tt != EOF && tt != GT && tt != FLOAT
    ensures Threads(ts, r)
    ensures r.val.Some? <==> ts.Type() == tt
    ensures r.val.Some? ==> r == Parsed(Head(ts), ts.tail, Some(ts.head))
    ensures r.val.None? ==> r == Fail(Nil(), ts)
    ensures !FloatIn(r.consumed) && (r.val.Some? ==> Used(r.consumed) == 1)
  {
    if ts.Type() == tt then Parsed(Head(ts), ts.tail, Some(ts.head)) else Fail(Nil(), ts)
  }

  /** expect_gt: `>>` counts for two, its second half pushed back. */
  function ExpectGt(ts: Tokens): (r: Parsed<Token>)
    ensures Threads(ts, r) && !FloatIn(r.consumed)
  {
    if ts.Type() == GT then Parsed(Head(ts), ts.tail, Some(ts.head))
    else if ts.Type() == SHR then Parsed(Head(ts), Cons(Token(GT, ">"), ts.tail), Some(ts.head))
    else Fail(Nil(), ts)
  }

  /** parse_qualified_name */
  function ParseName(ts: Tokens): (r: Parsed<string>)
    ensures Threads(ts, r) && !FloatIn(r.consumed)
    ensures r.val.Some? ==> Used(r.consumed) > 0
    decreases ts
  {
    if ts.Type() != IDENT then Fail(Nil(), ts)
    else if ts.tail.Type() == COLONCOLON && ts.tail.Next() == IDENT then
      var r := ParseName(ts.tail.tail);
      var c := Join(Head(ts), Join(Head(ts.tail), r.consumed));
      Parsed(c, r.rest, if r.val.None? then None else Some(ts.head.text + "::" + r.val.value))
    else Parsed(Head(ts), ts.tail, Some(ts.head.text))
  }

  const PRIMITIVES := {BOOL, U8, U16, U32, U64, I8, I16, I32, I64, F32, F64, STRING_T, PATH_T}
  const TYPE_STARTS := PRIMITIVES + {IDENT, ENC, VEC, MAT}

  predicate IsUpper(c: char) { 'A' <= c <= 'Z' }

  /** name.rsplit("::", 1)[-1][0].isupper() */
  predicate UpperName(name: string) {
    |name| > 0 && IsUpper(name[LastPart(name)])
  }

  /** Where a name's last part starts. */
  function LastPart(name: string): (k: nat)
    ensures |name| > 0 ==> k < |name|
  {
    if |name| <= 1 then 0
    else
      var n := |name| - 1;
      var k := LastPart(name[..n]);
      if name[n - 1] == ':' && n >= 2 && name[n - 2] == ':' then n else k
  }

  /** What reading `<Type>` for type arguments comes to: without a type, `rest` is the
      list from the `<` on as the attempt left it. */
  datatype Fish = Fish(consumed: Rope, rest: Tokens, arg: Option<Type>)

  /** The parser, given the type names that tell a struct literal from a block. */
  datatype Grammar = Grammar(known: set<string>) {

    // ----- types -----

    function ParseType(ts: Tokens): (r: Parsed<Type>)
      ensures ReadsType(ts, r)
      decreases NonGt(ts), 1
    {
      hide Used, FloatIn, NonGt, FloatLeft, Weight;
      hide ArgsFloat, ExprsFloat, TypesFloat, InitsFloat, ParamsFloat;
      if ts.End? then Fail(Nil(), ts)
      else
        var h, tt := Head(ts), ts.Type();
        if tt in PRIMITIVES then
          Parsed(h, ts.tail, Some(Primitive(if ts.head.Token? then ts.head.text else "")))
        else if tt == ENC then ParseEnc(ts)
        else if tt == VEC then ParseVec(ts)
        else if tt == MAT then ParseMat(ts)
        else if tt == FN then ParseFn(ts)
        else if tt == LPAREN then ParseTuple(ts)
        else if tt == IDENT then ParseNamed(ts)
        else Fail(Nil(), ts)
    }

    function ParseEnc(ts: Tokens): (r: Parsed<Type>)
      requires ts.Type() == ENC
      ensures ReadsType(ts, r)
      decreases NonGt(ts), 0
    {
      hide Used, FloatIn, NonGt, FloatLeft, Weight;
      hide ArgsFloat, ExprsFloat, TypesFloat, InitsFloat, ParamsFloat;
      var h := Head(ts);
      var lt := Expect(LT, ts.tail);
      if lt.val.None? then Fail(Join(h, lt.consumed), lt.rest)
      else
        var inner := ParseType(lt.rest);
        var c := Join(h, Join(lt.consumed, inner.consumed));
        if inner.val.None? then Fail(c, inner.rest)
        else
          var gt := ExpectGt(inner.rest);
          Parsed(Join(c, gt.consumed), gt.rest, if gt.val.None? then None else Some(Enc(inner.val.value)))
    }

    function ParseVec(ts: Tokens): (r: Parsed<Type>)
      requires ts.Type() == VEC
      ensures ReadsType(ts, r)
      decreases NonGt(ts), 0
    {
      hide Used, FloatIn, NonGt, FloatLeft, Weight;
      hide ArgsFloat, ExprsFloat, TypesFloat, InitsFloat, ParamsFloat;
      var h := Head(ts);
      var lt := Expect(LT, ts.tail);
      if lt.val.None? then Fail(Join(h, lt.consumed), lt.rest)
      else
        var elem := ParseType(lt.rest);
        var c := Join(h, Join(lt.consumed, elem.consumed));
        if elem.val.None? then Fail(c, elem.rest)
        else if elem.rest.Type() == COMMA then
          var hd := Head(elem.rest);
          var size := ParseExpr(elem.rest.tail);
          var c2 := Join(c, Join(hd, size.consumed));
          if size.val.None? then Fail(c2, size.rest)
          else
            var gt := ExpectGt(size.rest);
            Parsed(Join(c2, gt.consumed), gt.rest,
                   if gt.val.None? then None else Some(Vec(elem.val.value, Some(size.val.value))))
        else
          var gt := ExpectGt(elem.rest);
          Parsed(Join(c, gt.consumed), gt.rest, if gt.val.None? then None else Some(Vec(elem.val.value, None)))
    }

    function ParseMat(ts: Tokens): (r: Parsed<Type>)
      requires ts.Type() == MAT
      ensures ReadsType(ts, r)
      decreases NonGt(ts), 0
    {
      hide Used, FloatIn, NonGt, FloatLeft, Weight;
      hide ArgsFloat, ExprsFloat, TypesFloat, InitsFloat, ParamsFloat;
      var h := Head(ts);
      var lt := Expect(LT, ts.tail);
      if lt.val.None? then Fail(Join(h, lt.consumed), lt.rest)
      else
        var elem := ParseType(lt.rest);
        var c := Join(h, Join(lt.consumed, elem.consumed));
        if elem.val.None? then Fail(c, elem.rest)
        else
          var gt := ExpectGt(elem.rest);
          var c2 := Join(c, gt.consumed);
          if gt.val.None? then Fail(c2, gt.rest)
          else if gt.rest.Type() == LBRACKET then
            var size := ParseMatSize(elem.val.value, gt.rest);
            Parsed(Join(c2, size.consumed), size.rest, size.val)
          else Parsed(c2, gt.rest, Some(Mat(elem.val.value)))
    }

    /** `[rows, cols]` after a mat type. */
    function ParseMatSize(elem: Type, ts: Tokens): (r: Parsed<Type>)
      requires ts.Type() == LBRACKET
      ensures ReadsType(ts, r)
      ensures r.val.Some? && elem.HasFloat() ==> r.val.value.HasFloat()
      decreases NonGt(ts), 0
    {
      hide Used, FloatIn, NonGt, FloatLeft, Weight;
      hide ArgsFloat, ExprsFloat, TypesFloat, InitsFloat, ParamsFloat;
      var hd := Head(ts);
      var rows := ParseExpr(ts.tail);
      var c := Join(hd, rows.consumed);
      if rows.val.None? then Fail(c, rows.rest)
      else
        var comma := Expect(COMMA, rows.rest);
        if comma.val.None? then Fail(Join(c, comma.consumed), comma.rest)
        else
          var cols := ParseCols(comma.rest);
          Parsed(Join(Join(c, comma.consumed), cols.consumed), cols.rest,
                 if cols.val.None? then None else Some(SizedMat(elem, rows.val.value, cols.val.value)))
    }

    function ParseCols(ts: Tokens): (r: Parsed<Expr>)
      ensures Reads(ts, r)
      decreases NonGt(ts), 20
    {
      hide Used, FloatIn, NonGt, FloatLeft, Weight;
      hide ArgsFloat, ExprsFloat, TypesFloat, InitsFloat, ParamsFloat;
      var cols := ParseExpr(ts);
      if cols.val.None? then cols
      else
        var rb := Expect(RBRACKET, cols.rest);
        Parsed(Join(cols.consumed, rb.consumed), rb.rest, if rb.val.None? then None else cols.val)
    }

    function ParseFn(ts: Tokens): (r: Parsed<Type>)
      requires ts.Type() == FN
      ensures ReadsType(ts, r)
      decreases NonGt(ts), 0
    {
      hide Used, FloatIn, NonGt, FloatLeft, Weight;
      hide ArgsFloat, ExprsFloat, TypesFloat, InitsFloat, ParamsFloat;
      var h := Head(ts);
      var lp := Expect(LPAREN, ts.tail);
      if lp.val.None? then Fail(Join(h, lp.consumed), lp.rest)
      else
        var params := ParseTypes(lp.rest);
        var c := Join(h, Join(lp.consumed, params.consumed));
        if params.val.None? then Fail(c, params.rest)
        else
          var rp := Expect(RPAREN, params.rest);
          var c2 := Join(c, rp.consumed);
          if rp.val.None? then Fail(c2, rp.rest)
          else
            var arrow := Expect(ARROW, rp.rest);
            var c3 := Join(c2, arrow.consumed);
            if arrow.val.None? then Fail(c3, arrow.rest)
            else
              var ret := ParseType(arrow.rest);
              Parsed(Join(c3, ret.consumed), ret.rest,
                     if ret.val.None? then None else Some(FnOf(params.val.value, ret.val.value)))
    }

    function ParseTuple(ts: Tokens): (r: Parsed<Type>)
      requires ts.Type() == LPAREN
      ensures ReadsType(ts, r)
      decreases NonGt(ts), 0
    {
      hide Used, FloatIn, NonGt, FloatLeft, Weight;
      hide ArgsFloat, ExprsFloat, TypesFloat, InitsFloat, ParamsFloat;
      var hd := Head(ts);
      var elems := ParseTypes(ts.tail);
      var c := Join(hd, elems.consumed);
      if elems.val.None? then Fail(c, elems.rest)
      else
        var rp := Expect(RPAREN, elems.rest);
        Parsed(Join(c, rp.consumed), rp.rest, if rp.val.None? then None else Some(TupleOf(elems.val.value)))
    }

    function ParseNamed(ts: Tokens): (r: Parsed<Type>)
      requires ts.Type() == IDENT
      ensures ReadsType(ts, r)
      decreases NonGt(ts), 0
    {
      hide Used, FloatIn, NonGt, FloatLeft, Weight;
      hide ArgsFloat, ExprsFloat, TypesFloat, InitsFloat, ParamsFloat;
      var name := ParseName(ts);
      if name.val.None? then Fail(name.consumed, name.rest)
      else if name.rest.Type() == DOT then
        var hd := Head(name.rest);
        var sub := Expect(IDENT, name.rest.tail);
        Parsed(Join(name.consumed, Join(hd, sub.consumed)), sub.rest,
               if sub.val.None? then None else Some(Named(name.val.value, Some(sub.val.value.text))))
      else Parsed(name.consumed, name.rest, Some(Named(name.val.value, None)))
    }

    /** Types separated by commas, up to a closing parenthesis. */
    function ParseTypes(ts: Tokens): (r: Parsed<seq<Type>>)
      ensures Threads(ts, r)
      ensures r.val.Some? && FloatIn(r.consumed) ==> TypesFloat(r.val.value)
      decreases NonGt(ts), 20
    {
      hide Used, FloatIn, NonGt, FloatLeft, Weight;
      hide ArgsFloat, ExprsFloat, TypesFloat, InitsFloat, ParamsFloat;
      if ts.Type() == RPAREN then Parsed(Nil(), ts, Some([]))
      else
        var t := ParseType(ts);
        if t.val.None? then Fail(t.consumed, t.rest)
        else if t.rest.Type() == COMMA then
          var hd := Head(t.rest);
          var more := ParseTypes(t.rest.tail);
          var c := Join(t.consumed, Join(hd, more.consumed));
          if more.val.None? then Fail(c, more.rest)
          else
            Parsed(c, more.rest, Some(AddType(t.val.value, more.val.value)))
        else
          Parsed(t.consumed, t.rest, Some(AddType(t.val.value, [])))
    }

    // ----- expressions, loosest first -----

    function ParseExpr(ts: Tokens): (r: Parsed<Expr>)
      ensures Reads(ts, r)
      decreases NonGt(ts), 19
    {
      hide Used, FloatIn, NonGt, FloatLeft, Weight;
      hide ArgsFloat, ExprsFloat, TypesFloat, InitsFloat, ParamsFloat;
      ParsePipe(ts)
    }

    function ParsePipe(ts: Tokens): (r: Parsed<Expr>)
      ensures Reads(ts, r)
      decreases NonGt(ts), 18
    {
      hide Used, FloatIn, NonGt, FloatLeft, Weight;
      hide ArgsFloat, ExprsFloat, TypesFloat, InitsFloat, ParamsFloat;
      var l := ParseRange(ts);
      if l.val.None? then l
      else
        var m := PipeLoop(l.val.value, l.rest);
        Parsed(Join(l.consumed, m.consumed), m.rest, m.val)
    }

    function PipeLoop(left: Expr, ts: Tokens): (r: Parsed<Expr>)
      ensures GoesOn(left, ts, r)
      decreases NonGt(ts), 0
    {
      hide Used, FloatIn, NonGt, FloatLeft, Weight;
      hide ArgsFloat, ExprsFloat, TypesFloat, InitsFloat, ParamsFloat;
      if ts.Type() != PIPE_OP then Parsed(Nil(), ts, Some(left))
      else
        var h := Head(ts);
        if ts.tail.Type() == AS then
          var as_ := Head(ts.tail);
          var t := ParseType(ts.tail.tail);
          var c := Join(h, Join(as_, t.consumed));
          if t.val.None? then Fail(c, t.rest)
          else
            var m := PipeLoop(Cast(left, t.val.value), t.rest);
            Parsed(Join(c, m.consumed), m.rest, m.val)
        else
          var right := ParseRange(ts.tail);
          var c := Join(h, right.consumed);
          if right.val.None? then Fail(c, right.rest)
          else
            var m := PipeLoop(Pipe(left, right.val.value), right.rest);
            Parsed(Join(c, m.consumed), m.rest, m.val)
    }

    function ParseRange(ts: Tokens): (r: Parsed<Expr>)
      ensures Reads(ts, r)
      decreases NonGt(ts), 17
    {
      hide Used, FloatIn, NonGt, FloatLeft, Weight;
      hide ArgsFloat, ExprsFloat, TypesFloat, InitsFloat, ParamsFloat;
      var l := ParseOr(ts);
      if l.val.None? then l
      else if l.rest.Type() == DOTDOT || l.rest.Type() == DOTDOTEQ then
        var hd := Head(l.rest);
        var right := ParseOr(l.rest.tail);
        Parsed(Join(l.consumed, Join(hd, right.consumed)), right.rest,
               if right.val.None? then None
               else Some(Range(l.val.value, right.val.value, l.rest.Type() == DOTDOTEQ)))
      else l
    }

    function ParseOr(ts: Tokens): (r: Parsed<Expr>)
      ensures Reads(ts, r)
      decreases NonGt(ts), 16
    {
      hide Used, FloatIn, NonGt, FloatLeft, Weight;
      hide ArgsFloat, ExprsFloat, TypesFloat, InitsFloat, ParamsFloat;
      var l := ParseAnd(ts);
      if l.val.None? then l
      else
        var m := OrLoop(l.val.value, l.rest);
        Parsed(Join(l.consumed, m.consumed), m.rest, m.val)
    }

    function OrLoop(left: Expr, ts: Tokens): (r: Parsed<Expr>)
      ensures GoesOn(left, ts, r)
      decreases NonGt(ts), 0
    {
      hide Used, FloatIn, NonGt, FloatLeft, Weight;
      hide ArgsFloat, ExprsFloat, TypesFloat, InitsFloat, ParamsFloat;
      if ts.Type() != OR then Parsed(Nil(), ts, Some(left))
      else
        var hd := Head(ts);
        var right := ParseAnd(ts.tail);
        var c := Join(hd, right.consumed);
        if right.val.None? then Fail(c, right.rest)
        else
          var m := OrLoop(Binary("||", left, right.val.value), right.rest);
          Parsed(Join(c, m.consumed), m.rest, m.val)
    }

    function ParseAnd(ts: Tokens): (r: Parsed<Expr>)
      ensures Reads(ts, r)
      decreases NonGt(ts), 15
    {
      hide Used, FloatIn, NonGt, FloatLeft, Weight;
      hide ArgsFloat, ExprsFloat, TypesFloat, InitsFloat, ParamsFloat;
      var l := ParseEq(ts);
      if l.val.None? then l
      else
        var m := AndLoop(l.val.value, l.rest);
        Parsed(Join(l.consumed, m.consumed), m.rest, m.val)
    }

    function AndLoop(left: Expr, ts: Tokens): (r: Parsed<Expr>)
      ensures GoesOn(left, ts, r)
      decreases NonGt(ts), 0
    {
      hide Used, FloatIn, NonGt, FloatLeft, Weight;
      hide ArgsFloat, ExprsFloat, TypesFloat, InitsFloat, ParamsFloat;
      if ts.Type() != AND then Parsed(Nil(), ts, Some(left))
      else
        var hd := Head(ts);
        var right := ParseEq(ts.tail);
        var c := Join(hd, right.consumed);
        if right.val.None? then Fail(c, right.rest)
        else
          var m := AndLoop(Binary("&&", left, right.val.value), right.rest);
          Parsed(Join(c, m.consumed), m.rest, m.val)
    }

    function ParseEq(ts: Tokens): (r: Parsed<Expr>)
      ensures Reads(ts, r)
      decreases NonGt(ts), 14
    {
      hide Used, FloatIn, NonGt, FloatLeft, Weight;
      hide ArgsFloat, ExprsFloat, TypesFloat, InitsFloat, ParamsFloat;
      var l := ParseCmp(ts);
      if l.val.None? then l
      else if l.rest.Type() in {EQ_EQ, BANG_EQ, TILDE_EQ} then
        var hd := Head(l.rest);
        var right := ParseCmp(l.rest.tail);
        Parsed(Join(l.consumed, Join(hd, right.consumed)), right.rest,
               if right.val.None? then None else Some(Binary(l.rest.head.Word(), l.val.value, right.val.value)))
      else l
    }

    function ParseCmp(ts: Tokens): (r: Parsed<Expr>)
      ensures Reads(ts, r)
      decreases NonGt(ts), 13
    {
      hide Used, FloatIn, NonGt, FloatLeft, Weight;
      hide ArgsFloat, ExprsFloat, TypesFloat, InitsFloat, ParamsFloat;
      var l := ParseShift(ts);
      if l.val.None? then l
      else if l.rest.Type() in {LT, GT, LT_EQ, GT_EQ} then
        var hd := Head(l.rest);
        var right := ParseAdd(l.rest.tail);
        Parsed(Join(l.consumed, Join(hd, right.consumed)), right.rest,
               if right.val.None? then None else Some(Binary(l.rest.head.Word(), l.val.value, right.val.value)))
      else l
    }

    function ParseShift(ts: Tokens): (r: Parsed<Expr>)
      ensures Reads(ts, r)
      decreases NonGt(ts), 12
    {
      hide Used, FloatIn, NonGt, FloatLeft, Weight;
      hide ArgsFloat, ExprsFloat, TypesFloat, InitsFloat, ParamsFloat;
      var l := ParseAdd(ts);
      if l.val.None? then l
      else
        var m := ShiftLoop(l.val.value, l.rest);
        Parsed(Join(l.consumed, m.consumed), m.rest, m.val)
    }

    function ShiftLoop(left: Expr, ts: Tokens): (r: Parsed<Expr>)
      ensures GoesOn(left, ts, r)
      decreases NonGt(ts), 0
    {
      hide Used, FloatIn, NonGt, FloatLeft, Weight;
      hide ArgsFloat, ExprsFloat, TypesFloat, InitsFloat, ParamsFloat;
      if ts.Type() !in {SHL, SHR} then Parsed(Nil(), ts, Some(left))
      else
        var hd := Head(ts);
        var right := ParseAdd(ts.tail);
        var c := Join(hd, right.consumed);
        if right.val.None? then Fail(c, right.rest)
        else
          var m := ShiftLoop(Binary(ts.head.Word(), left, right.val.value), right.rest);
          Parsed(Join(c, m.consumed), m.rest, m.val)
    }

    function ParseAdd(ts: Tokens): (r: Parsed<Expr>)
      ensures Reads(ts, r)
      decreases NonGt(ts), 11
    {
      hide Used, FloatIn, NonGt, FloatLeft, Weight;
      hide ArgsFloat, ExprsFloat, TypesFloat, InitsFloat, ParamsFloat;
      var l := ParseMul(ts);
      if l.val.None? then l
      else
        var m := AddLoop(l.val.value, l.rest);
        Parsed(Join(l.consumed, m.consumed), m.rest, m.val)
    }

    function AddLoop(left: Expr, ts: Tokens): (r: Parsed<Expr>)
      ensures GoesOn(left, ts, r)
      decreases NonGt(ts), 0
    {
      hide Used, FloatIn, NonGt, FloatLeft, Weight;
      hide ArgsFloat, ExprsFloat, TypesFloat, InitsFloat, ParamsFloat;
      if ts.Type() !in {PLUS, MINUS} then Parsed(Nil(), ts, Some(left))
      else
        var hd := Head(ts);
        var right := ParseMul(ts.tail);
        var c := Join(hd, right.consumed);
        if right.val.None? then Fail(c, right.rest)
        else
          var m := AddLoop(Binary(ts.head.Word(), left, right.val.value), right.rest);
          Parsed(Join(c, m.consumed), m.rest, m.val)
    }

    function ParseMul(ts: Tokens): (r: Parsed<Expr>)
      ensures Reads(ts, r)
      decreases NonGt(ts), 10
    {
      hide Used, FloatIn, NonGt, FloatLeft, Weight;
      hide ArgsFloat, ExprsFloat, TypesFloat, InitsFloat, ParamsFloat;
      var l := ParsePow(ts);
      if l.val.None? then l
      else
        var m := MulLoop(l.val.value, l.rest);
        Parsed(Join(l.consumed, m.consumed), m.rest, m.val)
    }

    function MulLoop(left: Expr, ts: Tokens): (r: Parsed<Expr>)
      ensures GoesOn(left, ts, r)
      decreases NonGt(ts), 0
    {
      hide Used, FloatIn, NonGt, FloatLeft, Weight;
      hide ArgsFloat, ExprsFloat, TypesFloat, InitsFloat, ParamsFloat;
      if ts.Type() !in {STAR, SLASH, PERCENT, STAR_NORELIN} then Parsed(Nil(), ts, Some(left))
      else
        var hd := Head(ts);
        var right := ParsePow(ts.tail);
        var c := Join(hd, right.consumed);
        if right.val.None? then Fail(c, right.rest)
        else
          var m := MulLoop(Binary(ts.head.Word(), left, right.val.value), right.rest);
          Parsed(Join(c, m.consumed), m.rest, m.val)
    }

    function ParsePow(ts: Tokens): (r: Parsed<Expr>)
      ensures Reads(ts, r)
      decreases NonGt(ts), 9
    {
      hide Used, FloatIn, NonGt, FloatLeft, Weight;
      hide ArgsFloat, ExprsFloat, TypesFloat, InitsFloat, ParamsFloat;
      var base := ParseUnary(ts);
      if base.val.None? || base.rest.Type() != CARET then base
      else
        var hd := Head(base.rest);
        var exp := ParsePow(base.rest.tail);
        Parsed(Join(base.consumed, Join(hd, exp.consumed)), exp.rest,
               if exp.val.None? then None else Some(Binary("^", base.val.value, exp.val.value)))
    }

    function ParseUnary(ts: Tokens): (r: Parsed<Expr>)
      ensures Reads(ts, r)
      decreases NonGt(ts), 8
    {
      hide Used, FloatIn, NonGt, FloatLeft, Weight;
      hide ArgsFloat, ExprsFloat, TypesFloat, InitsFloat, ParamsFloat;
      if ts.Type() == MINUS || ts.Type() == BANG then
        var hd := Head(ts);
        var operand := ParseUnary(ts.tail);
        Parsed(Join(hd, operand.consumed), operand.rest,
               if operand.val.None? then None else Some(Unary(ts.head.Word(), operand.val.value)))
      else ParseCast(ts)
    }

    function ParseCast(ts: Tokens): (r: Parsed<Expr>)
      ensures Reads(ts, r)
      decreases NonGt(ts), 7
    {
      hide Used, FloatIn, NonGt, FloatLeft, Weight;
      hide ArgsFloat, ExprsFloat, TypesFloat, InitsFloat, ParamsFloat;
      var e := ParsePostfix(ts);
      if e.val.None? || e.rest.Type() != AS then e
      else
        var hd := Head(e.rest);
        var target := ParseType(e.rest.tail);
        Parsed(Join(e.consumed, Join(hd, target.consumed)), target.rest,
               if target.val.None? then None else Some(Cast(e.val.value, target.val.value)))
    }

    // ----- postfix forms -----

    /** _try_turbofish, at a `<`. */
    function TryTurbofish(ts: Tokens): (f: Fish)
      requires ts.Type() == LT
      ensures Used(f.consumed) + NonGt(f.rest) == NonGt(ts)
      ensures FloatLeft(ts) <==> FloatIn(f.consumed) || FloatLeft(f.rest)
      ensures f.arg.Some? ==> Used(f.consumed) > 0 && f.rest.Type() == LPAREN
      ensures f.arg.Some? ==> (FloatIn(f.consumed) ==> f.arg.value.HasFloat())
      ensures f.arg.None? ==> f.consumed == Empty
      decreases NonGt(ts), 0
    {
      hide Used, FloatIn, NonGt, FloatLeft, Weight;
      hide ArgsFloat, ExprsFloat, TypesFloat, InitsFloat, ParamsFloat;
      var h := Head(ts);
      if ts.tail.Type() !in TYPE_STARTS then Fish(Nil(), ts, None)
      else
        var t := ParseType(ts.tail);
        var c := Join(h, t.consumed);
        if t.val.None? then Fish(Nil(), Restore(c, t.rest), None)
        else
          var gt := ExpectGt(t.rest);
          if gt.val.Some? && gt.rest.Type() == LPAREN then Fish(Join(c, gt.consumed), gt.rest, Some(t.val.value))
          else Fish(Nil(), Restore(Join(c, gt.consumed), gt.rest), None)
    }

    function ParsePostfix(ts: Tokens): (r: Parsed<Expr>)
      ensures Reads(ts, r)
      decreases NonGt(ts), 6
    {
      hide Used, FloatIn, NonGt, FloatLeft, Weight;
      hide ArgsFloat, ExprsFloat, TypesFloat, InitsFloat, ParamsFloat;
      var e := ParsePrimary(ts);
      if e.val.None? then e
      else
        var m := PostfixLoop(e.val.value, e.rest);
        Parsed(Join(e.consumed, m.consumed), m.rest, m.val)
    }

    function PostfixLoop(e: Expr, ts: Tokens): (r: Parsed<Expr>)
      ensures GoesOn(e, ts, r)
      decreases NonGt(ts), 4
    {
      hide Used, FloatIn, NonGt, FloatLeft, Weight;
      hide ArgsFloat, ExprsFloat, TypesFloat, InitsFloat, ParamsFloat;
      if ts.Type() == DOT then
        var m := ParseMember(e, ts);
        if m.val.None? then m
        else
          var l := PostfixLoop(m.val.value, m.rest);
          Parsed(Join(m.consumed, l.consumed), l.rest, l.val)
      else if ts.Type() == LBRACKET then
        var m := ParseIndex(e, ts);
        if m.val.None? then m
        else
          var l := PostfixLoop(m.val.value, m.rest);
          Parsed(Join(m.consumed, l.consumed), l.rest, l.val)
      else if ts.Type() == LT then
        if !e.Ident? then Parsed(Nil(), ts, Some(e))
        else
          var f := TryTurbofish(ts);
          if f.arg.None? then Parsed(Nil(), f.rest, Some(e))
          else
            var m := ParseCall(e, AddType(f.arg.value, []), f.rest);
            var c := Join(f.consumed, m.consumed);
            if m.val.None? then Fail(c, m.rest)
            else
              var l := PostfixLoop(m.val.value, m.rest);
              Parsed(Join(c, l.consumed), l.rest, l.val)
      else if ts.Type() == LPAREN then
        var m := ParseCall(e, [], ts);
        if m.val.None? then m
        else
          var l := PostfixLoop(m.val.value, m.rest);
          Parsed(Join(m.consumed, l.consumed), l.rest, l.val)
      else Parsed(Nil(), ts, Some(e))
    }

    /** `.name` or `.name(args)` */
    function ParseMember(e: Expr, ts: Tokens): (r: Parsed<Expr>)
      requires ts.Type() == DOT
      ensures GoesOn(e, ts, r) && (r.val.Some? ==> Used(r.consumed) > 0)
      decreases NonGt(ts), 3
    {
      hide Used, FloatIn, NonGt, FloatLeft, Weight;
      hide ArgsFloat, ExprsFloat, TypesFloat, InitsFloat, ParamsFloat;
      var hd := Head(ts);
      var name := Expect(IDENT, ts.tail);
      var c := Join(hd, name.consumed);
      if name.val.None? then Fail(c, name.rest)
      else if name.rest.Type() == LPAREN then
        var hd := Head(name.rest);
        var args := ParseArgs(name.rest.tail);
        var c2 := Join(c, Join(hd, args.consumed));
        if args.val.None? then Fail(c2, args.rest)
        else
          var rp := Expect(RPAREN, args.rest);
          Parsed(Join(c2, rp.consumed), rp.rest,
                 if rp.val.None? then None else Some(MethodOf(e, name.val.value.text, args.val.value)))
      else Parsed(c, name.rest, Some(Field(e, name.val.value.text)))
    }

    /** `(args)` */
    function ParseCall(e: Expr, typeArgs: seq<Type>, ts: Tokens): (r: Parsed<Expr>)
      requires ts.Type() == LPAREN
      ensures GoesOn(e, ts, r) && (r.val.Some? ==> Used(r.consumed) > 0)
      ensures r.val.Some? && TypesFloat(typeArgs) ==> r.val.value.HasFloat()
      decreases NonGt(ts), 3
    {
      hide Used, FloatIn, NonGt, FloatLeft, Weight;
      hide ArgsFloat, ExprsFloat, TypesFloat, InitsFloat, ParamsFloat;
      var hd := Head(ts);
      var args := ParseArgs(ts.tail);
      var c := Join(hd, args.consumed);
      if args.val.None? then Fail(c, args.rest)
      else
        var rp := Expect(RPAREN, args.rest);
        Parsed(Join(c, rp.consumed), rp.rest,
               if rp.val.None? then None else Some(CallOf(e, args.val.value, typeArgs)))
    }

    /** What `[idx]` makes of e: a range slices. */
    function Indexed(e: Expr, idx: Expr): (r: Expr)
      ensures e.HasFloat() || idx.HasFloat() ==> r.HasFloat()
    {
      if idx.Range? then Slice(e, idx.start, idx.end) else Index(e, idx)
    }

    /** `[i]`, `[i, j]`, `[a..b]` or `[a..b, j]` */
    function ParseIndex(e: Expr, ts: Tokens): (r: Parsed<Expr>)
      requires ts.Type() == LBRACKET
      ensures GoesOn(e, ts, r) && (r.val.Some? ==> Used(r.consumed) > 0)
      decreases NonGt(ts), 3
    {
      hide Used, FloatIn, NonGt, FloatLeft, Weight, Indexed;
      hide ArgsFloat, ExprsFloat, TypesFloat, InitsFloat, ParamsFloat;
      var hd := Head(ts);
      var idx := ParseExpr(ts.tail);
      var c := Join(hd, idx.consumed);
      if idx.val.None? then Fail(c, idx.rest)
      else
        var first := Indexed(e, idx.val.value);
        if idx.rest.Type() == COMMA then
          var hd := Head(idx.rest);
          var col := ParseCols(idx.rest.tail);
          Parsed(Join(c, Join(hd, col.consumed)), col.rest,
                 if col.val.None? then None else Some(Index(first, col.val.value)))
        else
          var rb := Expect(RBRACKET, idx.rest);
          Parsed(Join(c, rb.consumed), rb.rest, if rb.val.None? then None else Some(first))
    }

    predicate IsNamedArg(ts: Tokens) {
      ts.Next() == COLON && ts.Type() in {IDENT, DOMAIN, SCHEME, WIRE}
    }

    function ParseArgs(ts: Tokens): (r: Parsed<seq<Arg>>)
      ensures Threads(ts, r)
      ensures r.val.Some? && FloatIn(r.consumed) ==> ArgsFloat(r.val.value)
      decreases NonGt(ts), 20
    {
      hide Used, FloatIn, NonGt, FloatLeft, Weight;
      hide ArgsFloat, ExprsFloat, TypesFloat, InitsFloat, ParamsFloat;
      if ts.Type() == RPAREN then Parsed(Nil(), ts, Some([]))
      else
        var named := IsNamedArg(ts);
        var c := if named then Join(Head(ts), Head(ts.tail)) else Nil();
        var v := ParseExpr(if named then ts.tail.tail else ts);
        var c2 := Join(c, v.consumed);
        if v.val.None? then Fail(c2, v.rest)
        else
          var a := if named then Keyword(ts.head.Word(), v.val.value) else Positional(v.val.value);
          if v.rest.Type() == COMMA then
            var hd := Head(v.rest);
            var more := ParseArgs(v.rest.tail);
            var c3 := Join(c2, Join(hd, more.consumed));
            if more.val.None? then Fail(c3, more.rest)
            else
              Parsed(c3, more.rest, Some(AddArg(a, more.val.value)))
          else Parsed(c2, v.rest, Some(AddArg(a, [])))
    }

    // ----- primary forms -----

    function ParsePrimary(ts: Tokens): (r: Parsed<Expr>)
      ensures Reads(ts, r)
      decreases NonGt(ts), 5
    {
      hide Used, FloatIn, NonGt, FloatLeft, Weight;
      hide ArgsFloat, ExprsFloat, TypesFloat, InitsFloat, ParamsFloat;
      if ts.End? then Fail(Nil(), ts)
      else
        var h, tt := Head(ts), ts.Type();
        if tt in {PLUS, MINUS, STAR} && ts.Next() in {COMMA, RPAREN} then
          Parsed(h, ts.tail, Some(Ident("op_" + ts.head.Word())))
        else if tt == INT then
          if ts.head.IntToken? then Parsed(h, ts.tail, Some(IntLiteral(ts.head.n))) else Fail(Nil(), ts)
        else if tt == FLOAT then Parsed(h, ts.tail, Some(FloatLiteral(ts.head.text)))
        else if tt == STRING then Parsed(h, ts.tail, Some(StringLiteral(ts.head.text)))
        else if tt == TRUE then Parsed(h, ts.tail, Some(BoolLiteral(true)))
        else if tt == FALSE then Parsed(h, ts.tail, Some(BoolLiteral(false)))
        else if tt == SCHEME then Parsed(h, ts.tail, Some(Ident(ts.head.text)))
        else if tt == WIRE then Parsed(h, ts.tail, Some(Ident(ts.head.text)))
        else if tt == DOMAIN then Parsed(h, ts.tail, Some(Ident(ts.head.text)))
        else if tt == PIPE then ParseClosure(ts)
        else if tt == LBRACKET then
          var elems := ParseElements(RBRACKET, ts.tail);
          var c := Join(h, elems.consumed);
          if elems.val.None? then Fail(c, elems.rest)
          else
            var rb := Expect(RBRACKET, elems.rest);
            Parsed(Join(c, rb.consumed), rb.rest, if rb.val.None? then None else Some(ArrayOf(elems.val.value)))
        else if tt == LPAREN then ParseParen(ts)
        else if tt == IDENT then ParseIdent(ts)
        else Fail(Nil(), ts)
    }

    /** A grouping, or a tuple read as an array. */
    function ParseParen(ts: Tokens): (r: Parsed<Expr>)
      requires ts.Type() == LPAREN
      ensures Reads(ts, r)
      decreases NonGt(ts), 0
    {
      hide Used, FloatIn, NonGt, FloatLeft, Weight;
      hide ArgsFloat, ExprsFloat, TypesFloat, InitsFloat, ParamsFloat;
      var hd := Head(ts);
      var e := ParseExpr(ts.tail);
      var c := Join(hd, e.consumed);
      if e.val.None? then Fail(c, e.rest)
      else if e.rest.Type() == COMMA then
        var hd := Head(e.rest);
        var more := ParseElements(RPAREN, e.rest.tail);
        var c2 := Join(c, Join(hd, more.consumed));
        if more.val.None? then Fail(c2, more.rest)
        else
          var rp := Expect(RPAREN, more.rest);
          Parsed(Join(c2, rp.consumed), rp.rest,
                 if rp.val.None? then None else Some(ArrayOf(AddExpr(e.val.value, more.val.value))))
      else
        var rp := Expect(RPAREN, e.rest);
        Parsed(Join(c, rp.consumed), rp.rest, if rp.val.None? then None else e.val)
    }

    /** Expressions separated by commas, up to a closing token. */
    function ParseElements(close: TT, ts: Tokens): (r: Parsed<seq<Expr>>)
      ensures Threads(ts, r)
      ensures r.val.Some? && FloatIn(r.consumed) ==> ExprsFloat(r.val.value)
      decreases NonGt(ts), 20
    {
      hide Used, FloatIn, NonGt, FloatLeft, Weight;
      hide ArgsFloat, ExprsFloat, TypesFloat, InitsFloat, ParamsFloat;
      if ts.Type() == close then Parsed(Nil(), ts, Some([]))
      else
        var e := ParseExpr(ts);
        if e.val.None? then Fail(e.consumed, e.rest)
        else if e.rest.Type() == COMMA then
          var hd := Head(e.rest);
          var more := ParseElements(close, e.rest.tail);
          var c := Join(e.consumed, Join(hd, more.consumed));
          if more.val.None? then Fail(c, more.rest)
          else
            Parsed(c, more.rest, Some(AddExpr(e.val.value, more.val.value)))
        else
          Parsed(e.consumed, e.rest, Some(AddExpr(e.val.value, [])))
    }

    /** A name, or a struct literal when what follows says so. */
    function ParseIdent(ts: Tokens): (r: Parsed<Expr>)
      requires ts.Type() == IDENT
      ensures Reads(ts, r)
      decreases NonGt(ts), 0
    {
      hide Used, FloatIn, NonGt, FloatLeft, Weight;
      hide ArgsFloat, ExprsFloat, TypesFloat, InitsFloat, ParamsFloat;
      var name := ParseName(ts);
      if name.val.None? then Fail(name.consumed, name.rest)
      else if name.rest.Type() == LBRACE
           && (name.val.value in known
               || (UpperName(name.val.value) && name.rest.Next() == IDENT
                   && name.rest.tail.Next() in {COLON, COMMA, RBRACE})) then
        var hd := Head(name.rest);
        var fields := ParseInits(name.rest.tail);
        var c := Join(name.consumed, Join(hd, fields.consumed));
        if fields.val.None? then Fail(c, fields.rest)
        else
          var rb := Expect(RBRACE, fields.rest);
          Parsed(Join(c, rb.consumed), rb.rest,
                 if rb.val.None? then None else Some(StructOf(name.val.value, fields.val.value)))
      else Parsed(name.consumed, name.rest, Some(Ident(name.val.value)))
    }

    function ParseInits(ts: Tokens): (r: Parsed<seq<Init>>)
      ensures Threads(ts, r)
      ensures r.val.Some? && FloatIn(r.consumed) ==> InitsFloat(r.val.value)
      decreases NonGt(ts), 20
    {
      hide Used, FloatIn, NonGt, FloatLeft, Weight;
      hide ArgsFloat, ExprsFloat, TypesFloat, InitsFloat, ParamsFloat;
      if ts.Type() == RBRACE then Parsed(Nil(), ts, Some([]))
      else
        var f := ParseInit(ts);
        if f.val.None? then Fail(f.consumed, f.rest)
        else if f.rest.Type() == COMMA then
          var hd := Head(f.rest);
          var more := ParseInits(f.rest.tail);
          var c := Join(f.consumed, Join(hd, more.consumed));
          if more.val.None? then Fail(c, more.rest)
          else
            Parsed(c, more.rest, Some(AddInit(f.val.value, more.val.value)))
        else
          Parsed(f.consumed, f.rest, Some(AddInit(f.val.value, [])))
    }

    function ParseInit(ts: Tokens): (r: Parsed<Init>)
      ensures Threads(ts, r)
      ensures r.val.Some? ==> Used(r.consumed) > 0
      ensures r.val.Some? && FloatIn(r.consumed) ==> r.val.value.Init? && r.val.value.value.HasFloat()
      decreases NonGt(ts), 0
    {
      hide Used, FloatIn, NonGt, FloatLeft, Weight;
      hide ArgsFloat, ExprsFloat, TypesFloat, InitsFloat, ParamsFloat;
      var name := Expect(IDENT, ts);
      if name.val.None? then Fail(name.consumed, name.rest)
      else if name.rest.Type() == COLON then
        var hd := Head(name.rest);
        var v := ParseExpr(name.rest.tail);
        Parsed(Join(name.consumed, Join(hd, v.consumed)), v.rest,
               if v.val.None? then None else Some(Init.Init(name.val.value.text, v.val.value)))
      else Parsed(name.consumed, name.rest, Some(Shorthand(name.val.value.text)))
    }

    /** A closure whose body is an expression. */
    function ParseClosure(ts: Tokens): (r: Parsed<Expr>)
      requires ts.Type() == PIPE
      ensures Reads(ts, r)
      decreases NonGt(ts), 0
    {
      hide Used, FloatIn, NonGt, FloatLeft, Weight;
      hide ArgsFloat, ExprsFloat, TypesFloat, InitsFloat, ParamsFloat;
      var hd := Head(ts);
      var params := ParseParams(ts.tail);
      var c := Join(hd, params.consumed);
      if params.val.None? then Fail(c, params.rest)
      else
        var close := Expect(PIPE, params.rest);
        var c2 := Join(c, close.consumed);
        if close.val.None? || close.rest.Type() == LBRACE then Fail(c2, close.rest)
        else
          var body := ParseExpr(close.rest);
          Parsed(Join(c2, body.consumed), body.rest,
                 if body.val.None? then None else Some(ClosureOf(params.val.value, body.val.value)))
    }

    function ParseParams(ts: Tokens): (r: Parsed<seq<Param>>)
      ensures Threads(ts, r)
      ensures r.val.Some? && FloatIn(r.consumed) ==> ParamsFloat(r.val.value)
      decreases NonGt(ts), 20
    {
      hide Used, FloatIn, NonGt, FloatLeft, Weight;
      hide ArgsFloat, ExprsFloat, TypesFloat, InitsFloat, ParamsFloat;
      if ts.Type() == PIPE then Parsed(Nil(), ts, Some([]))
      else
        var p := ParseParam(ts);
        if p.val.None? then Fail(p.consumed, p.rest)
        else if p.rest.Type() == COMMA then
          var hd := Head(p.rest);
          var more := ParseParams(p.rest.tail);
          var c := Join(p.consumed, Join(hd, more.consumed));
          if more.val.None? then Fail(c, more.rest)
          else
            Parsed(c, more.rest, Some(AddParam(p.val.value, more.val.value)))
        else
          Parsed(p.consumed, p.rest, Some(AddParam(p.val.value, [])))
    }

    function ParseParam(ts: Tokens): (r: Parsed<Param>)
      ensures Threads(ts, r)
      ensures r.val.Some? ==> Used(r.consumed) > 0
      ensures r.val.Some? && FloatIn(r.consumed) ==> r.val.value.ann.Some? && r.val.value.ann.value.HasFloat()
      decreases NonGt(ts), 0
    {
      hide Used, FloatIn, NonGt, FloatLeft, Weight;
      hide ArgsFloat, ExprsFloat, TypesFloat, InitsFloat, ParamsFloat;
      var name := Expect(IDENT, ts);
      if name.val.None? then Fail(name.consumed, name.rest)
      else if name.rest.Type() == COLON then
        var hd := Head(name.rest);
        var t := ParseType(name.rest.tail);
        Parsed(Join(name.consumed, Join(hd, t.consumed)), t.rest,
               if t.val.None? then None else Some(Param(name.val.value.text, Some(t.val.value))))
      else Parsed(name.consumed, name.rest, Some(Param(name.val.value.text, None)))
    }
  }
}
