/** The lexer over a printed symbolic expression: exactly its tokens when it is lexable,
    and otherwise an error or a float literal the expression does not have. Lexable says
    that no string holds a newline and no field is taken of text that ends in a number,
    where the printed dot would be read into the number. Both directions go by induction
    over the expression, with the text that follows it as a parameter. */
module PrintedText {
  import opened Lexing
  import opened Symbolic
  import opened PrintedTokens

  /** What may follow e's text. */
  predicate Follows(e: Sym, t: string) {
    || |t| == 0
    || t[0] == ' ' || t[0] == ')' || t[0] == ','
    || (t[0] == '.' && !e.Bin? && !EndsInNumber(e))
  }

  /** No text starts with `>`, which would make an arrow of a minus sign. */
  lemma NameStarts(parts: seq<string>)
    requires IsQualified(parts)
    ensures |Join(parts)| > 0 && IsWordStart(Join(parts)[0])
  {
    assert parts[0] in parts;
  }

  lemma {:induction false} TextStarts(e: Sym)
    requires WellNamed(e)
    ensures |Text(e)| > 0 && Text(e)[0] != '>'
    decreases e, 1
  {
    match e
    case Flag(_) =>
    case Str(_) =>
    case Num(n) =>
      var s := Decimal(if n < 0 then -n else n);
      assert s[0] in s;
    case Name(_, parts) => NameStarts(parts);
    case Member(of, _) => WrapStarts(of, 3);
    case Apply(func, _) => NameStarts(func);
    case Neg(_) =>
    case Bin(op, left, _) => WrapStarts(left, Prec(op));
  }

  lemma {:induction false} WrapStarts(e: Sym, prec: nat)
    requires WellNamed(e)
    ensures |Wrap(e, prec)| > 0 && Wrap(e, prec)[0] != '>'
    decreases e, 2
  {
    if !Wrapped(e, prec) {
      TextStarts(e);
    }
  }

  // ----- lexable expressions -----

  lemma {:induction false} LexText(e: Sym, t: string)
    requires WellNamed(e) && Lexable(e) && Follows(e, t)
    ensures Lex(Text(e) + t) == Put(e, Lex(t))
    decreases e, 1
  {
    hide Lex;
    match e
    case Flag(b) => LexKeyword(Text(e), t);
    case Str(s) => LexString(s, t);
    case Num(n) => LexNum(n, t);
    case Name(_, parts) => LexName(parts, t);
    case Member(of, field) => LexMember(of, field, t);
    case Apply(func, args) => LexApply(e, t);
    case Neg(arg) =>
      WrapStarts(arg, 3);
      assert Text(e) + t == "-" + (Wrap(arg, 3) + t);
      LexMinus(Wrap(arg, 3) + t);
      LexWrapped(arg, 3, t);
    case Bin(op, left, right) =>
      var rest := Wrap(right, Prec(op) + 1) + t;
      assert Text(e) + t == Wrap(left, Prec(op)) + (" " + Spelling(op) + " " + rest);
      LexWrapped(left, Prec(op), " " + Spelling(op) + " " + rest);
      LexOp(op, rest);
      LexWrapped(right, Prec(op) + 1, t);
  }

  lemma LexNum(n: int, t: string)
    requires Follows(Num(n), t)
    ensures Lex(Text(Num(n)) + t) == Put(Num(n), Lex(t))
  {
    hide Lex;
    if n < 0 {
      var s := Decimal(-n) + t;
      assert Decimal(-n)[0] in Decimal(-n);
      assert "-" + Decimal(-n) + t == "-" + s;
      LexMinus(s);
      LexNumber(-n, t);
    } else {
      LexNumber(n, t);
    }
  }

  lemma {:induction false} LexMember(of: Sym, field: string, t: string)
    requires WellNamed(of) && IsIdent(field) && Lexable(of) && !EndsInNumber(of) && WordEnds(t)
    ensures Lex(Wrap(of, 3) + "." + field + t) == PutWrapped(of, 3, Cons(DOT_SIGN, Cons(Word(field), Lex(t))))
    decreases of, 3
  {
    hide Lex;
    var rest := field + t;
    assert Wrap(of, 3) + "." + field + t == Wrap(of, 3) + ("." + rest);
    LexWrapped(of, 3, "." + rest);
    LexDot(rest);
    LexIdent(field, t);
  }

  lemma {:induction false} LexApply(e: Sym, t: string)
    requires e.Apply? && WellNamed(e) && Lexable(e)
    ensures Lex(Text(e) + t) == Put(e, Lex(t))
    decreases e, 0
  {
    hide Lex;
    var close := ")" + t;
    var rest := Texts(e.args) + close;
    assert Text(e) + t == Join(e.func) + ("(" + rest);
    LexName(e.func, "(" + rest);
    LexOpen(rest);
    LexTexts(e.args, close);
    LexClose(t);
  }

  lemma {:induction false} LexTexts(args: seq<Sym>, t: string)
    requires forall a :: a in args ==> WellNamed(a) && Lexable(a)
    requires |t| > 0 && t[0] == ')'
    ensures Lex(Texts(args) + t) == PutAll(args, Lex(t))
    decreases args, 0
  {
    hide Lex;
    if |args| == 0 {
      assert "" + t == t;
    } else {
      assert args[0] in args;
      if |args| == 1 {
        LexText(args[0], t);
      } else {
        var rest := Texts(args[1..]) + t;
        assert Texts(args) + t == Text(args[0]) + (", " + rest);
        LexText(args[0], ", " + rest);
        LexComma(rest);
        LexTexts(args[1..], t);
      }
    }
  }

  lemma {:induction false} LexWrapped(e: Sym, prec: nat, t: string)
    requires WellNamed(e) && Lexable(e) && (Wrapped(e, prec) || Follows(e, t))
    ensures Lex(Wrap(e, prec) + t) == PutWrapped(e, prec, Lex(t))
    decreases e, 2
  {
    hide Lex;
    if Wrapped(e, prec) {
      var close := ")" + t;
      assert Wrap(e, prec) + t == "(" + (Text(e) + close);
      LexOpen(Text(e) + close);
      LexText(e, close);
      LexClose(t);
    } else {
      LexText(e, t);
    }
  }

  // ----- the others -----

  /** No expression prints as this: an error, or a float literal among the tokens. */
  predicate Spoiled(r: Lexes) {
    r.Failure? || exists t :: t in r.value && t.Type() == FLOAT
  }

  lemma ConsSpoiled(t: Token, r: Lexes)
    requires Spoiled(r) || t.Type() == FLOAT
    ensures Spoiled(Cons(t, r))
  {
    if r.Success? {
      var all := Cons(t, r).value;
      assert t in all && forall x :: x in r.value ==> x in all;
    }
  }

  lemma {:induction false} NameSpoiled(parts: seq<string>, r: Lexes)
    requires Spoiled(r)
    ensures Spoiled(PutName(parts, r))
  {
    hide Spoiled;
    if |parts| == 1 {
      ConsSpoiled(Word(parts[0]), r);
    } else if |parts| > 1 {
      NameSpoiled(parts[1..], r);
      var rest := PutName(parts[1..], r);
      ConsSpoiled(Token(COLONCOLON, "::"), rest);
      ConsSpoiled(Word(parts[0]), Cons(Token(COLONCOLON, "::"), rest));
    }
  }

  lemma {:induction false} PutSpoiled(e: Sym, r: Lexes)
    requires Spoiled(r)
    ensures Spoiled(Put(e, r))
    decreases e, 1
  {
    hide Spoiled;
    match e
    case Flag(b) => ConsSpoiled(if b then Token(TRUE, "true") else Token(FALSE, "false"), r);
    case Str(s) => ConsSpoiled(Token(STRING, s), r);
    case Num(n) =>
      ConsSpoiled(IntToken(if n < 0 then -n else n), r);
      if n < 0 { ConsSpoiled(MINUS_SIGN, Cons(IntToken(-n), r)); }
    case Name(_, parts) => NameSpoiled(parts, r);
    case Member(of, field) =>
      ConsSpoiled(Word(field), r);
      ConsSpoiled(DOT_SIGN, Cons(Word(field), r));
      PutWrappedSpoiled(of, 3, Cons(DOT_SIGN, Cons(Word(field), r)));
    case Apply(func, args) =>
      ConsSpoiled(CLOSE, r);
      PutAllSpoiled(args, Cons(CLOSE, r));
      ConsSpoiled(OPEN, PutAll(args, Cons(CLOSE, r)));
      NameSpoiled(func, Cons(OPEN, PutAll(args, Cons(CLOSE, r))));
    case Neg(arg) =>
      PutWrappedSpoiled(arg, 3, r);
      ConsSpoiled(MINUS_SIGN, PutWrapped(arg, 3, r));
    case Bin(op, left, right) =>
      var rest := PutWrapped(right, Prec(op) + 1, r);
      PutWrappedSpoiled(right, Prec(op) + 1, r);
      ConsSpoiled(OpTok(op), rest);
      PutWrappedSpoiled(left, Prec(op), Cons(OpTok(op), rest));
  }

  lemma {:induction false} PutAllSpoiled(args: seq<Sym>, r: Lexes)
    requires Spoiled(r)
    ensures Spoiled(PutAll(args, r))
    decreases args, 0
  {
    hide Spoiled;
    if |args| == 1 {
      PutSpoiled(args[0], r);
    } else if |args| > 1 {
      PutAllSpoiled(args[1..], r);
      ConsSpoiled(COMMA_SIGN, PutAll(args[1..], r));
      PutSpoiled(args[0], Cons(COMMA_SIGN, PutAll(args[1..], r)));
    }
  }

  lemma {:induction false} PutWrappedSpoiled(e: Sym, prec: nat, r: Lexes)
    requires Spoiled(r)
    ensures Spoiled(PutWrapped(e, prec, r))
    decreases e, 2
  {
    hide Spoiled;
    if Wrapped(e, prec) {
      ConsSpoiled(CLOSE, r);
      PutSpoiled(e, Cons(CLOSE, r));
      ConsSpoiled(OPEN, Put(e, Cons(CLOSE, r)));
    } else {
      PutSpoiled(e, r);
    }
  }

  /** The dot of a field access, right after digits, makes a float of them. */
  lemma FloatToken(n: nat, u: string)
    requires |u| > 0 && u[0] != '.'
    ensures Spoiled(Lex(Decimal(n) + "." + u))
  {
    var w := Decimal(n);
    var s := w + "." + u;
    assert w[0] in w;
    assert s == w + ("." + u);
    NumberLengthOf(w, "." + u);
    assert At(s, |w|) == '.' && At(s, |w| + 1) == u[0];
    var tok := NumberToken(s);
    assert tok.token.Type() == FLOAT;
    SkipStops(s);
    ConsSpoiled(tok.token, Lex(s[tok.length..]));
  }

  lemma {:induction false} FloatAfterNumber(e: Sym, u: string)
    requires EndsInNumber(e) && |u| > 0 && u[0] != '.'
    ensures Spoiled(Lex(Text(e) + "." + u))
  {
    hide Lex, Spoiled;
    match e
    case Num(n) =>
      if n < 0 {
        var s := Decimal(-n) + "." + u;
        assert Decimal(-n)[0] in Decimal(-n);
        assert Text(e) + "." + u == "-" + s;
        LexMinus(s);
        FloatToken(-n, u);
        ConsSpoiled(MINUS_SIGN, Lex(s));
      } else {
        FloatToken(n, u);
      }
    case Neg(arg) =>
      var s := Text(arg) + "." + u;
      NumberStarts(arg);
      assert Text(e) + "." + u == "-" + s;
      LexMinus(s);
      FloatAfterNumber(arg, u);
      ConsSpoiled(MINUS_SIGN, Lex(s));
  }

  lemma NumberStarts(e: Sym)
    requires EndsInNumber(e)
    ensures |Text(e)| > 0 && Text(e)[0] != '>'
  {
    if e.Num? {
      var s := Decimal(if e.n < 0 then -e.n else e.n);
      assert s[0] in s;
    }
  }

  lemma {:induction false} LexSpoiled(e: Sym, t: string)
    requires WellNamed(e) && !Lexable(e)
    ensures Spoiled(Lex(Text(e) + t))
    decreases e, 1
  {
    hide Lex, Spoiled;
    match e
    case Str(s) =>
      LexString(s, t);
      FailureSpoiled(Lex(Text(e) + t));
    case Member(_, _) => MemberSpoiled(e, t);
    case Apply(_, _) => ApplySpoiled(e, t);
    case Neg(_) => NegSpoiled(e, t);
    case Bin(_, _, _) => BinSpoiled(e, t);
  }

  lemma NumberSpoiled(of: Sym, field: string, t: string)
    requires EndsInNumber(of) && IsIdent(field)
    ensures Spoiled(Lex(Text(of) + ("." + (field + t))))
  {
    hide Lex, Spoiled, Text, EndsInNumber;
    var rest := field + t;
    assert rest[0] == field[0] && field[0] != '.';
    assert Text(of) + ("." + rest) == Text(of) + "." + rest;
    FloatAfterNumber(of, rest);
  }

  lemma MemberText(e: Sym, t: string)
    requires e.Member?
    ensures Text(e) + t == Wrap(e.of, 3) + ("." + (e.field + t))
  {
    assert Text(e) == Wrap(e.of, 3) + "." + e.field;
  }

  lemma {:induction false} MemberSpoiled(e: Sym, t: string)
    requires e.Member? && WellNamed(e) && !Lexable(e)
    ensures Spoiled(Lex(Text(e) + t))
    decreases e, 0
  {
    hide Lex, Spoiled, Text, IsIdent;
    MemberText(e, t);
    if Lexable(e.of) {
      assert EndsInNumber(e.of);
      NumberSpoiled(e.of, e.field, t);
    } else {
      WrapSpoiled(e.of, 3, "." + (e.field + t));
    }
  }

  lemma {:induction false} NegSpoiled(e: Sym, t: string)
    requires e.Neg? && WellNamed(e) && !Lexable(e)
    ensures Spoiled(Lex(Text(e) + t))
    decreases e, 0
  {
    hide Lex, Spoiled;
    var rest := Wrap(e.arg, 3) + t;
    WrapStarts(e.arg, 3);
    assert Text(e) + t == "-" + rest;
    LexMinus(rest);
    WrapSpoiled(e.arg, 3, t);
    ConsSpoiled(MINUS_SIGN, Lex(rest));
  }

  lemma {:induction false} ApplySpoiled(e: Sym, t: string)
    requires e.Apply? && WellNamed(e) && !Lexable(e)
    ensures Spoiled(Lex(Text(e) + t))
    decreases e, 0
  {
    hide Lex, Spoiled;
    var rest := Texts(e.args) + (")" + t);
    assert Text(e) + t == Join(e.func) + ("(" + rest);
    LexName(e.func, "(" + rest);
    LexOpen(rest);
    TextsSpoiled(e.args, ")" + t);
    ConsSpoiled(OPEN, Lex(rest));
    NameSpoiled(e.func, Lex("(" + rest));
  }

  lemma {:induction false} BinSpoiled(e: Sym, t: string)
    requires e.Bin? && WellNamed(e) && !Lexable(e)
    ensures Spoiled(Lex(Text(e) + t))
    decreases e, 0
  {
    hide Lex, Spoiled, Wrap;
    var op := e.op;
    var rest := Wrap(e.right, Prec(op) + 1) + t;
    var tail := " " + Spelling(op) + " " + rest;
    assert Text(e) + t == Wrap(e.left, Prec(op)) + tail;
    if Lexable(e.left) {
      LexWrapped(e.left, Prec(op), tail);
      LexOp(op, rest);
      WrapSpoiled(e.right, Prec(op) + 1, t);
      ConsSpoiled(OpTok(op), Lex(rest));
      PutWrappedSpoiled(e.left, Prec(op), Lex(tail));
    } else {
      WrapSpoiled(e.left, Prec(op), tail);
    }
  }

  lemma FailureSpoiled(r: Lexes)
    requires r.Failure?
    ensures Spoiled(r)
  {}

  lemma {:induction false} TextsSpoiled(args: seq<Sym>, t: string)
    requires forall a :: a in args ==> WellNamed(a)
    requires exists a :: a in args && !Lexable(a)
    requires |t| > 0 && t[0] == ')'
    ensures Spoiled(Lex(Texts(args) + t))
    decreases args, 0
  {
    hide Lex, Spoiled;
    assert args[0] in args;
    if |args| == 1 {
      LexSpoiled(args[0], t);
    } else {
      var rest := Texts(args[1..]) + t;
      assert Texts(args) + t == Text(args[0]) + (", " + rest);
      if Lexable(args[0]) {
        LexText(args[0], ", " + rest);
        LexComma(rest);
        TextsSpoiled(args[1..], t);
        ConsSpoiled(COMMA_SIGN, Lex(rest));
        PutSpoiled(args[0], Lex(", " + rest));
      } else {
        LexSpoiled(args[0], ", " + rest);
      }
    }
  }

  lemma {:induction false} WrapSpoiled(e: Sym, prec: nat, t: string)
    requires WellNamed(e) && !Lexable(e)
    ensures Spoiled(Lex(Wrap(e, prec) + t))
    decreases e, 2
  {
    hide Lex, Spoiled;
    if Wrapped(e, prec) {
      var rest := Text(e) + (")" + t);
      assert Wrap(e, prec) + t == "(" + rest;
      LexOpen(rest);
      LexSpoiled(e, ")" + t);
      ConsSpoiled(OPEN, Lex(rest));
    } else {
      LexSpoiled(e, t);
    }
  }
}
