/** The lexer class: one position moving over the source, and the list of tokens found
    so far. Its loops over white space, nested comments, strings and digits are proved
    against the functions of `Lexing` on the text from the position on, errors included,
    so that what holds of `Lex` holds of the tokens the class returns for any source,
    those it refuses included. */
module Lexer {
  import opened Lexing

  datatype Outcome = Fine | Raised(error: LexError)

  class Lexer {
    const source: string
    var pos: nat
    var tokens: seq<Token>

    constructor (source: string)
      ensures this.source == source && pos == 0 && tokens == []
    {
      this.source := source;
      pos, tokens := 0, [];
    }

    /** What is left of the source. */
    ghost function Rest(): string
      reads this
      requires pos <= |source|
    {
      source[pos..]
    }

    function Peek(): char
      reads this
    {
      if pos >= |source| then '\0' else source[pos]
    }

    function PeekAt(offset: nat): char
      reads this
    {
      if pos + offset >= |source| then '\0' else source[pos + offset]
    }

    method Advance() returns (c: char)
      requires pos < |source|
      modifies this`pos
      ensures pos == old(pos) + 1 && c == source[old(pos)]
      ensures pos <= |source| && Rest() == old(Rest())[1..]
    {
      c := source[pos];
      pos := pos + 1;
    }

    method SkipWhitespaceAndComments() returns (o: Outcome)
      requires pos <= |source|
      modifies this`pos
      ensures pos <= |source|
      ensures o.Fine? ==> Skip(old(Rest())) == Success(Rest())
      ensures o.Raised? ==> Skip(old(Rest())) == Failure(o.error)
    {
      while pos < |source|
        invariant pos <= |source| && Skip(Rest()) == Skip(old(Rest()))
        decreases |source| - pos
      {
        var ch := Peek();
        if IsSpace(ch) {
          var _ := Advance();
        } else if ch == '/' && PeekAt(1) == '/' {
          assert Rest()[2..] == source[pos + 2..];
          pos := pos + 2;
          ghost var line := Rest();
          while pos < |source| && Peek() != '\n'
            invariant pos <= |source| && SkipLine(Rest()) == SkipLine(line)
          {
            var _ := Advance();
          }
        } else if ch == '/' && PeekAt(1) == '*' {
          assert Rest()[2..] == source[pos + 2..];
          pos := pos + 2;
          var ok := SkipNested();
          if !ok { return Raised(UnterminatedComment); }
        } else {
          break;
        }
      }
      o := Fine;
    }

    /** A block comment, after its opening: comments nest. */
    method SkipNested() returns (ok: bool)
      requires pos <= |source|
      modifies this`pos
      ensures old(pos) <= pos <= |source|
      ensures SkipBlock(old(Rest()), 1) == if ok then Success(Rest()) else Failure(UnterminatedComment)
    {
      var depth: nat := 1;
      while pos < |source| && depth > 0
        invariant old(pos) <= pos <= |source|
        invariant SkipBlock(Rest(), depth) == SkipBlock(old(Rest()), 1)
      {
        if Peek() == '/' && PeekAt(1) == '*' {
          assert Rest()[2..] == source[pos + 2..];
          depth := depth + 1;
          pos := pos + 2;
        } else if Peek() == '*' && PeekAt(1) == '/' {
          assert Rest()[2..] == source[pos + 2..];
          depth := depth - 1;
          pos := pos + 2;
        } else {
          var _ := Advance();
        }
      }
      ok := depth == 0;
    }

    /** A string literal's value, its opening quote already taken. */
    method ReadString() returns (o: Outcome, value: string)
      requires pos <= |source|
      modifies this`pos
      ensures old(pos) <= pos <= |source|
      ensures o.Fine? ==> old(pos) < pos && StringBody(old(Rest())) == Success(Literal(value, pos - old(pos)))
      ensures o.Raised? ==> StringBody(old(Rest())) == Failure(o.error)
    {
      hide After, StringBody, Escape;
      var chars := "";
      ghost var start := pos;
      AfterNothing(StringBody(Rest()));
      while pos < |source|
        invariant start <= pos <= |source|
        invariant StringBody(old(Rest())) == After(chars, pos - start, StringBody(Rest()))
      {
        var ch := Peek();
        if ch == '"' {
          StringEnds(Rest(), chars, pos - start);
          pos := pos + 1;
          return Fine, chars;
        } else if ch == '\\' {
          if pos + 1 == |source| {
            StringEnds(Rest(), chars, pos - start);
            return Raised(PastEnd), "";
          }
          StringGoesOn(Rest(), chars, pos - start);
          assert Rest()[2..] == source[pos + 2..];
          chars := chars + [Escape(source[pos + 1])];
          pos := pos + 2;
        } else if ch == '\n' {
          StringEnds(Rest(), chars, pos - start);
          return Raised(UnterminatedString), "";
        } else {
          StringGoesOn(Rest(), chars, pos - start);
          assert Rest()[1..] == source[pos + 1..];
          chars := chars + [ch];
          pos := pos + 1;
        }
      }
      StringEnds(Rest(), chars, pos - start);
      return Raised(UnterminatedString), "";
    }

    /** Number characters from the position on, underscores dropped. */
    method ReadDigits() returns (digits: string)
      requires pos <= |source|
      modifies this`pos
      ensures pos == old(pos) + NumberLength(old(Rest())) <= |source|
      ensures digits == Digits(old(Rest())[..NumberLength(old(Rest()))])
    {
      digits := "";
      ghost var start, whole := pos, Rest();
      while pos < |source| && (IsDigit(Peek()) || Peek() == '_')
        invariant start <= pos <= |source| && pos - start <= NumberLength(whole)
        invariant digits == Digits(source[start..pos])
      {
        assert whole[pos - start] == source[pos];
        DigitsAppend(source[start..pos], source[pos]);
        assert source[start..pos + 1] == source[start..pos] + [source[pos]];
        var ch := Advance();
        if ch != '_' {
          digits := digits + [ch];
        }
      }
      if pos < |source| { assert whole[pos - start] == source[pos]; }
      assert whole[..pos - start] == source[start..pos];
    }

    method ReadNumber() returns (t: Token)
      requires pos < |source| && IsDigit(source[pos])
      modifies this`pos
      ensures old(pos) <= pos <= |source|
      ensures Lexed(t, pos - old(pos)) == NumberToken(old(Rest()))
    {
      hide Digits, DigitsValue, NumberLength;
      ghost var start, whole := pos, Rest();
      var digits := ReadDigits();
      ghost var k := pos - start;
      assert At(whole, k) == Peek() && At(whole, k + 1) == PeekAt(1);
      if Peek() == '.' && PeekAt(1) != '.' {
        pos := pos + 1;
        assert whole[k + 1..] == Rest();
        var fraction := ReadDigits();
        assert whole[k + 1..][..pos - start - k - 1] == whole[k + 1..pos - start];
        t := Token(FLOAT, digits + "." + fraction);
      } else {
        t := IntToken(DigitsValue(digits));
      }
    }

    method ReadWord() returns (word: string)
      requires pos <= |source|
      modifies this`pos
      ensures pos == old(pos) + WordLength(old(Rest())) <= |source|
      ensures word == old(Rest())[..WordLength(old(Rest()))]
    {
      word := "";
      ghost var start, whole := pos, Rest();
      while pos < |source| && IsWordChar(Peek())
        invariant start <= pos <= |source| && pos - start <= WordLength(whole)
        invariant word == source[start..pos]
      {
        assert whole[pos - start] == source[pos];
        var ch := Advance();
        word := word + [ch];
      }
      if pos < |source| { assert whole[pos - start] == source[pos]; }
      assert whole[..pos - start] == source[start..pos];
    }

    /** lex_all */
    method LexAll() returns (r: Result<seq<Token>>)
      requires pos == 0 && tokens == []
      modifies this
      ensures r == Lex(source)
      ensures r.Success? ==> tokens == r.value
    {
      assert source[0..] == source;
      PrefixedNothing(Lex(source));
      while true
        invariant pos <= |source|
        invariant Lex(source) == Prefixed(tokens, Lex(Rest()))
        decreases |source| - pos
      {
        hide FirstToken, Skip, Lex, Prefixed;
        ghost var before := Rest();
        var o := SkipWhitespaceAndComments();
        LexRound(tokens, before);
        if o.Raised? { return Failure(o.error); }
        SkipShortens(before);
        if pos >= |source| {
          tokens := tokens + [END];
          return Success(tokens);
        }
        ghost var here, at := Rest(), pos;
        var t;
        o, t := ReadToken();
        if o.Raised? { return Failure(o.error); }
        assert here[pos - at..] == Rest();
        tokens := tokens + [t];
      }
    }

    /** One round of lex_all's loop, after what is skipped. */
    method ReadToken() returns (o: Outcome, t: Token)
      requires pos < |source|
      modifies this`pos
      ensures old(pos) <= pos <= |source|
      ensures o.Fine? ==> old(pos) < pos && FirstToken(old(Rest())) == Success(Lexed(t, pos - old(pos)))
      ensures o.Raised? ==> FirstToken(old(Rest())) == Failure(o.error)
    {
      ghost var whole, start := Rest(), pos;
      o, t := Fine, END;
      var ch := Peek();
      if IsDigit(ch) {
        t := ReadNumber();
      } else if IsWordStart(ch) {
        var word := ReadWord();
        t := Token(if word in KEYWORDS then KEYWORDS[word] else IDENT, word);
      } else if ch == '"' {
        pos := pos + 1;
        assert Rest() == whole[1..];
        var value;
        o, value := ReadString();
        t := Token(STRING, value);
      } else if ch == '@' {
        pos := pos + 1;
        assert Rest() == whole[1..];
        if pos < |source| && IsWordStart(Peek()) {
          var word := ReadWord();
          assert whole[1..][..pos - start - 1] == whole[1..pos - start];
          t := Token(ANNOTATION, word);
        } else {
          o := Raised(BadAnnotation);
        }
      } else {
        o, t := ReadOperator();
      }
    }

    /** The character that is next, if it is this one. */
    method Follow(c: char) returns (followed: bool)
      requires pos <= |source| && c != '\0'
      modifies this`pos
      ensures followed == (old(pos) < |source| && source[old(pos)] == c)
      ensures pos == if followed then old(pos) + 1 else old(pos)
    {
      followed := Peek() == c;
      if followed {
        var _ := Advance();
      }
    }

    /** The eight characters of `_norelin`, after a star. */
    method FollowNorelin() returns (followed: bool)
      requires pos <= |source|
      modifies this`pos
      ensures followed == (NORELIN <= source[old(pos)..])
      ensures pos == if followed then old(pos) + 8 else old(pos)
    {
      followed := false;
      NorelinIsSlice(source[pos..]);
      if Peek() == '_' {
        var rest := source[pos..if pos + 8 <= |source| then pos + 8 else |source|];
        assert rest == source[pos..][..|rest|];
        if rest == NORELIN {
          for k := 0 to 8
            invariant pos == old(pos) + k <= |source|
          {
            var _ := Advance();
          }
          followed := true;
        }
      }
    }

    /** The operator and delimiter branches. */
    method ReadOperator() returns (o: Outcome, t: Token)
      requires pos < |source|
      modifies this`pos
      ensures old(pos) <= pos <= |source|
      ensures o.Fine? ==> old(pos) < pos && OpToken(old(Rest())) == Success(Lexed(t, pos - old(pos)))
      ensures o.Raised? ==> OpToken(old(Rest())) == Failure(o.error)
      ensures o.Fine? ==> IsLongest(t, old(Rest())) && pos == old(pos) + |t.Word()|
      ensures o.Raised? ==> forall u :: u in Operators(source[old(pos)]) ==> !(u.Word() <= old(Rest()))
    {
      hide OpToken, IsLongest, Operators;
      LongestOperator(Rest());
      o, t := ReadSigns();
    }

    method ReadSigns() returns (o: Outcome, t: Token)
      requires pos < |source|
      modifies this`pos
      ensures old(pos) <= pos <= |source|
      ensures o.Fine? ==> old(pos) < pos && OpToken(old(Rest())) == Success(Lexed(t, pos - old(pos)))
      ensures o.Raised? ==> OpToken(old(Rest())) == Failure(o.error)
    {
      o, t := Fine, END;
      var ch := Advance();
      var followed;
      match ch {
        case '|' =>
          followed := Follow('>');
          if followed { return Fine, Token(PIPE_OP, "|>"); }
          followed := Follow('|');
          t := if followed then Token(OR, "||") else Token(PIPE, "|");
        case '&' =>
          followed := Follow('&');
          if followed { t := Token(AND, "&&"); } else { o := Raised(UnexpectedCharacter); }
        case '=' =>
          followed := Follow('=');
          if followed { return Fine, Token(EQ_EQ, "=="); }
          followed := Follow('>');
          t := if followed then Token(FAT_ARROW, "=>") else Token(EQ, "=");
        case '!' =>
          followed := Follow('=');
          t := if followed then Token(BANG_EQ, "!=") else Token(BANG, "!");
        case '<' =>
          followed := Follow('=');
          if followed { return Fine, Token(LT_EQ, "<="); }
          followed := Follow('<');
          t := if followed then Token(SHL, "<<") else Token(LT, "<");
        case '>' =>
          followed := Follow('=');
          if followed { return Fine, Token(GT_EQ, ">="); }
          followed := Follow('>');
          t := if followed then Token(SHR, ">>") else Token(GT, ">");
        case '~' =>
          followed := Follow('=');
          if followed { t := Token(TILDE_EQ, "~="); } else { o := Raised(UnexpectedCharacter); }
        case '-' =>
          followed := Follow('>');
          t := if followed then Token(ARROW, "->") else Token(MINUS, "-");
        case '.' =>
          followed := Follow('.');
          if !followed { return Fine, Token(DOT, "."); }
          followed := Follow('=');
          t := if followed then Token(DOTDOTEQ, "..=") else Token(DOTDOT, "..");
        case ':' =>
          followed := Follow(':');
          t := if followed then Token(COLONCOLON, "::") else Token(COLON, ":");
        case '*' =>
          assert source[old(pos)..][1..] == source[pos..];
          followed := FollowNorelin();
          t := if followed then Token(STAR_NORELIN, "*_norelin") else Token(STAR, "*");
        case _ =>
          if ch in SINGLES { t := Token(SINGLES[ch], [ch]); } else { o := Raised(UnexpectedCharacter); }
      }
    }
  }

  function After(chars: string, n: nat, r: Result<Literal>): Result<Literal> {
    if r.Failure? then r else Success(Literal(chars + r.value.value, n + r.value.length))
  }

  lemma AfterNothing(r: Result<Literal>)
    ensures r == After("", 0, r)
  {
    if r.Success? {
      assert "" + r.value.value == r.value.value;
    }
  }

  /** Where a string stops, for good or not. */
  lemma StringEnds(s: string, chars: string, n: nat)
    requires |s| == 0 || s[0] == '"' || s[0] == '\n' || (s[0] == '\\' && |s| == 1)
    ensures After(chars, n, StringBody(s)) ==
      if |s| > 0 && s[0] == '"' then Success(Literal(chars, n + 1))
      else Failure(if |s| > 0 && s[0] == '\\' then PastEnd else UnterminatedString)
  {
    assert chars + "" == chars;
  }

  lemma StringGoesOn(s: string, chars: string, n: nat)
    requires |s| > 0 && s[0] != '"' && s[0] != '\n' && (s[0] == '\\' ==> |s| > 1)
    ensures After(chars, n, StringBody(s)) ==
      if s[0] == '\\' then After(chars + [Escape(s[1])], n + 2, StringBody(s[2..]))
      else After(chars + [s[0]], n + 1, StringBody(s[1..]))
  {
    hide Escape;
    if s[0] == '\\' {
      AfterMore(chars, Escape(s[1]), n, 2, StringBody(s[2..]));
    } else {
      AfterMore(chars, s[0], n, 1, StringBody(s[1..]));
    }
  }

  lemma AfterMore(chars: string, c: char, n: nat, k: nat, r: Result<Literal>)
    ensures After(chars, n, if r.Failure? then r else Success(Literal([c] + r.value.value, k + r.value.length)))
         == After(chars + [c], n + k, r)
  {
    if r.Success? {
      assert chars + ([c] + r.value.value) == chars + [c] + r.value.value;
    }
  }

  function Prefixed(ts: seq<Token>, r: Result<seq<Token>>): Result<seq<Token>> {
    if r.Failure? then r else Success(ts + r.value)
  }

  lemma PrefixedNothing(r: Result<seq<Token>>)
    ensures r == Prefixed([], r)
  {
    if r.Success? {
      assert [] + r.value == r.value;
    }
  }

  lemma PrefixedCons(ts: seq<Token>, t: Token, r: Result<seq<Token>>)
    ensures Prefixed(ts, Cons(t, r)) == Prefixed(ts + [t], r)
  {
    if r.Success? {
      assert ts + ([t] + r.value) == ts + [t] + r.value;
    }
  }

  /** What one round makes of the rest of the source. */
  lemma LexRound(ts: seq<Token>, s: string)
    ensures Skip(s).Failure? ==> Prefixed(ts, Lex(s)) == Failure(Skip(s).error)
    ensures Skip(s).Success? && |Skip(s).value| == 0 ==> Prefixed(ts, Lex(s)) == Success(ts + [END])
    ensures Skip(s).Success? && |Skip(s).value| > 0 ==>
      var t := FirstToken(Skip(s).value);
      Prefixed(ts, Lex(s)) == if t.Failure? then Failure(t.error)
                              else Prefixed(ts + [t.value.token], Lex(Skip(s).value[t.value.length..]))
  {
    hide FirstToken, Skip;
    if Skip(s).Success? && |Skip(s).value| > 0 && FirstToken(Skip(s).value).Success? {
      var t := FirstToken(Skip(s).value).value;
      PrefixedCons(ts, t.token, Lex(Skip(s).value[t.length..]));
    }
  }

  lemma {:induction false} DigitsAppend(s: string, c: char)
    ensures Digits(s + [c]) == Digits(s) + (if c == '_' then [] else [c])
  {
    if |s| > 0 {
      assert (s + [c])[1..] == s[1..] + [c];
      DigitsAppend(s[1..], c);
    } else {
      assert (s + [c])[1..] == [];
    }
  }

  lemma SkipShortens(s: string)
    ensures Skip(s).Success? ==> |Skip(s).value| <= |s|
  {}
}
