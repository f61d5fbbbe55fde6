/** The nb lexer, as functions of the text still to be read. `Lex` says what the tokens
    of a source are, suffix by suffix: white space and comments, which nest, are skipped;
    then the first character decides between a number, a word, a string and an operator,
    of which the longest spelling wins. The class in `Lexer` is the lexer itself, moving
    its position over the source. */
module Lexing {

  /** Token types, numbered as the enumeration lists them. */
  type TT = nat

  const INT: TT := 1
  const FLOAT: TT := 2
  const STRING: TT := 3
  const IDENT: TT := 4
  const ANNOTATION: TT := 5
  const FN: TT := 6
  const LET: TT := 7
  const IF: TT := 8
  const ELSE: TT := 9
  const FOR: TT := 10
  const IN: TT := 11
  const MATCH: TT := 12
  const RETURN: TT := 13
  const CONST: TT := 14
  const USE: TT := 15
  const MODULE: TT := 16
  const STRUCT: TT := 17
  const ENUM: TT := 18
  const WIRE: TT := 19
  const SCHEME: TT := 20
  const REQUIRES: TT := 21
  const DOMAIN: TT := 22
  const ASSERT: TT := 23
  const TRUE: TT := 24
  const FALSE: TT := 25
  const AS: TT := 26
  const HAS: TT := 27
  const CAN: TT := 28
  const CANNOT: TT := 29
  const EXTERN: TT := 30
  const BOOL: TT := 31
  const U8: TT := 32
  const U16: TT := 33
  const U32: TT := 34
  const U64: TT := 35
  const I8: TT := 36
  const I16: TT := 37
  const I32: TT := 38
  const I64: TT := 39
  const F32: TT := 40
  const F64: TT := 41
  const STRING_T: TT := 42
  const PATH_T: TT := 43
  const ENC: TT := 44
  const VEC: TT := 45
  const MAT: TT := 46
  const AUTO: TT := 47
  const PLUS: TT := 48
  const MINUS: TT := 49
  const STAR: TT := 50
  const SLASH: TT := 51
  const PERCENT: TT := 52
  const CARET: TT := 53
  const STAR_NORELIN: TT := 54
  const PIPE_OP: TT := 55
  const PIPE: TT := 56
  const OR: TT := 57
  const AND: TT := 58
  const BANG: TT := 59
  const EQ_EQ: TT := 60
  const BANG_EQ: TT := 61
  const LT: TT := 62
  const GT: TT := 63
  const LT_EQ: TT := 64
  const GT_EQ: TT := 65
  const SHL: TT := 66
  const SHR: TT := 67
  const TILDE_EQ: TT := 68
  const EQ: TT := 69
  const ARROW: TT := 70
  const FAT_ARROW: TT := 71
  const COLONCOLON: TT := 72
  const LPAREN: TT := 73
  const RPAREN: TT := 74
  const LBRACKET: TT := 75
  const RBRACKET: TT := 76
  const LBRACE: TT := 77
  const RBRACE: TT := 78
  const COMMA: TT := 79
  const COLON: TT := 80
  const DOT: TT := 81
  const DOTDOT: TT := 82
  const DOTDOTEQ: TT := 83
  const EOF: TT := 84

  /** A token's value: its text, or the number an INT token stands for. */
  datatype Token = Token(tt: TT, text: string) | IntToken(n: nat) {
    function Type(): TT {
      if IntToken? then INT else tt
    }

    /** Its text; a number has none. */
    function Word(): string {
      if IntToken? then "" else text
    }
  }

  datatype LexError = UnterminatedComment | UnterminatedString | BadAnnotation | UnexpectedCharacter | PastEnd

  datatype Result<+T> = Success(value: T) | Failure(error: LexError)

  const KEYWORDS: map<string, TT> := map[
    "fn" := FN, "let" := LET, "if" := IF, "else" := ELSE, "for" := FOR, "in" := IN, "match" := MATCH,
    "return" := RETURN, "const" := CONST, "use" := USE, "module" := MODULE, "struct" := STRUCT, "enum" := ENUM,
    "wire" := WIRE, "scheme" := SCHEME, "requires" := REQUIRES, "domain" := DOMAIN, "assert" := ASSERT,
    "true" := TRUE, "false" := FALSE, "as" := AS, "has" := HAS, "can" := CAN, "cannot" := CANNOT,
    "extern" := EXTERN, "bool" := BOOL, "u8" := U8, "u16" := U16, "u32" := U32, "u64" := U64,
    "i8" := I8, "i16" := I16, "i32" := I32, "i64" := I64, "f32" := F32, "f64" := F64,
    "string" := STRING_T, "path" := PATH_T, "enc" := ENC, "vec" := VEC, "mat" := MAT, "auto" := AUTO]

  predicate IsDigit(c: char) { '0' <= c <= '9' }
  predicate IsAlpha(c: char) { 'a' <= c <= 'z' || 'A' <= c <= 'Z' }
  predicate IsWordStart(c: char) { IsAlpha(c) || c == '_' }
  predicate IsWordChar(c: char) { IsAlpha(c) || IsDigit(c) || c == '_' }
  predicate IsNumberChar(c: char) { IsDigit(c) || c == '_' }
  predicate IsSpace(c: char) { c == ' ' || c == '\t' || c == '\r' || c == '\n' }

  /** peek_at: past the end it is "\0". */
  function At(s: string, k: nat): char {
    if k < |s| then s[k] else '\0'
  }

  // ----- what is skipped -----

  function SkipLine(s: string): (r: string)
    ensures |r| <= |s|
  {
    if |s| == 0 || s[0] == '\n' then s else SkipLine(s[1..])
  }

  /** The rest of a block comment nested depth deep. */
  function SkipBlock(s: string, depth: nat): (r: Result<string>)
    ensures r.Success? ==> |r.value| <= |s|
  {
    if depth == 0 then Success(s)
    else if |s| == 0 then Failure(UnterminatedComment)
    else if s[0] == '/' && At(s, 1) == '*' then SkipBlock(s[2..], depth + 1)
    else if s[0] == '*' && At(s, 1) == '/' then SkipBlock(s[2..], depth - 1)
    else SkipBlock(s[1..], depth)
  }

  function Skip(s: string): (r: Result<string>)
    ensures r.Success? ==> |r.value| <= |s|
    decreases |s|
  {
    if |s| == 0 then Success(s)
    else if IsSpace(s[0]) then Skip(s[1..])
    else if s[0] == '/' && At(s, 1) == '/' then Skip(SkipLine(s[2..]))
    else if s[0] == '/' && At(s, 1) == '*' then
      var r := SkipBlock(s[2..], 1);
      if r.Failure? then r else Skip(r.value)
    else Success(s)
  }

  // ----- words, numbers, strings -----

  /** How many leading characters are word characters. */
  function WordLength(s: string): (k: nat)
    ensures k <= |s|
    ensures forall i :: 0 <= i < k ==> IsWordChar(s[i])
    ensures k < |s| ==> !IsWordChar(s[k])
  {
    if |s| == 0 || !IsWordChar(s[0]) then 0 else 1 + WordLength(s[1..])
  }

  function NumberLength(s: string): (k: nat)
    ensures k <= |s|
    ensures forall i :: 0 <= i < k ==> IsNumberChar(s[i])
    ensures k < |s| ==> !IsNumberChar(s[k])
  {
    if |s| == 0 || !IsNumberChar(s[0]) then 0 else 1 + NumberLength(s[1..])
  }

  /** The digits of a number's characters, underscores dropped. */
  function Digits(s: string): (r: string)
    ensures forall c :: c in r ==> c != '_' && c in s
  {
    if |s| == 0 then [] else (if s[0] == '_' then [] else [s[0]]) + Digits(s[1..])
  }

  function DigitsValue(s: string): nat
    requires forall c :: c in s ==> IsDigit(c)
  {
    if |s| == 0 then 0
    else
      assert s[|s| - 1] in s;
      10 * DigitsValue(s[..|s| - 1]) + DigitOf(s[|s| - 1])
  }

  function DigitOf(c: char): (d: nat)
    requires IsDigit(c)
    ensures d < 10
  {
    c as int - '0' as int
  }

  datatype Lexed = Lexed(token: Token, length: nat)

  /** read_number */
  function NumberToken(s: string): (r: Lexed)
    requires |s| > 0 && IsDigit(s[0])
    ensures 0 < r.length <= |s|
  {
    var k := NumberLength(s);
    if At(s, k) == '.' && At(s, k + 1) != '.' then
      var m := NumberLength(s[k + 1..]);
      Lexed(Token(FLOAT, Digits(s[..k]) + "." + Digits(s[k + 1..k + 1 + m])), k + 1 + m)
    else
      Lexed(IntToken(DigitsValue(Digits(s[..k]))), k)
  }

  /** read_ident_or_keyword */
  function WordToken(s: string): (r: Lexed)
    requires |s| > 0 && IsWordStart(s[0])
    ensures 0 < r.length <= |s|
  {
    var k := WordLength(s);
    var word := s[..k];
    Lexed(Token(if word in KEYWORDS then KEYWORDS[word] else IDENT, word), k)
  }

  function Escape(c: char): char {
    if c == 'n' then '\n' else if c == 't' then '\t' else c
  }

  datatype Literal = Literal(value: string, length: nat)

  /** The rest of a string literal, after its opening quote. */
  function StringBody(s: string): (r: Result<Literal>)
    ensures r.Success? ==> 0 < r.value.length <= |s|
  {
    if |s| == 0 then Failure(UnterminatedString)
    else if s[0] == '"' then Success(Literal("", 1))
    else if s[0] == '\\' then
      if |s| == 1 then Failure(PastEnd)
      else
        var r := StringBody(s[2..]);
        if r.Failure? then r else Success(Literal([Escape(s[1])] + r.value.value, 2 + r.value.length))
    else if s[0] == '\n' then Failure(UnterminatedString)
    else
      var r := StringBody(s[1..]);
      if r.Failure? then r else Success(Literal([s[0]] + r.value.value, 1 + r.value.length))
  }

  // ----- operators and delimiters -----

  const NORELIN := "_norelin"
  const SINGLES: map<char, TT> := map[
    '+' := PLUS, '/' := SLASH, '%' := PERCENT, '^' := CARET, '(' := LPAREN, ')' := RPAREN, '[' := LBRACKET,
    ']' := RBRACKET, '{' := LBRACE, '}' := RBRACE, ',' := COMMA]

  function Op(tt: TT, text: string): Result<Lexed> {
    Success(Lexed(Token(tt, text), |text|))
  }

  function OpToken(s: string): (r: Result<Lexed>)
    requires |s| > 0
    ensures r.Success? ==> 0 < r.value.length <= |s|
  {
    var next := At(s, 1);
    match s[0]
    case '|' => if next == '>' then Op(PIPE_OP, "|>") else if next == '|' then Op(OR, "||") else Op(PIPE, "|")
    case '&' => if next == '&' then Op(AND, "&&") else Failure(UnexpectedCharacter)
    case '=' => if next == '=' then Op(EQ_EQ, "==") else if next == '>' then Op(FAT_ARROW, "=>") else Op(EQ, "=")
    case '!' => if next == '=' then Op(BANG_EQ, "!=") else Op(BANG, "!")
    case '<' => if next == '=' then Op(LT_EQ, "<=") else if next == '<' then Op(SHL, "<<") else Op(LT, "<")
    case '>' => if next == '=' then Op(GT_EQ, ">=") else if next == '>' then Op(SHR, ">>") else Op(GT, ">")
    case '~' => if next == '=' then Op(TILDE_EQ, "~=") else Failure(UnexpectedCharacter)
    case '-' => if next == '>' then Op(ARROW, "->") else Op(MINUS, "-")
    case '.' =>
      if next == '.' then if At(s, 2) == '=' then Op(DOTDOTEQ, "..=") else Op(DOTDOT, "..") else Op(DOT, ".")
    case ':' => if next == ':' then Op(COLONCOLON, "::") else Op(COLON, ":")
    case '*' => if NORELIN <= s[1..] then Op(STAR_NORELIN, "*_norelin") else Op(STAR, "*")
    case _ => if s[0] in SINGLES then Op(SINGLES[s[0]], [s[0]]) else Failure(UnexpectedCharacter)
  }

  function One(tt: TT, text: string): Token {
    Token(tt, text)
  }

  /** Every operator and delimiter that starts with a character. */
  function Operators(c: char): seq<Token> {
    match c
    case '|' => [One(PIPE_OP, "|>"), One(OR, "||"), One(PIPE, "|")]
    case '&' => [One(AND, "&&")]
    case '=' => [One(EQ_EQ, "=="), One(FAT_ARROW, "=>"), One(EQ, "=")]
    case '!' => [One(BANG_EQ, "!="), One(BANG, "!")]
    case '<' => [One(LT_EQ, "<="), One(SHL, "<<"), One(LT, "<")]
    case '>' => [One(GT_EQ, ">="), One(SHR, ">>"), One(GT, ">")]
    case '~' => [One(TILDE_EQ, "~=")]
    case '-' => [One(ARROW, "->"), One(MINUS, "-")]
    case '.' => [One(DOTDOTEQ, "..="), One(DOTDOT, ".."), One(DOT, ".")]
    case ':' => [One(COLONCOLON, "::"), One(COLON, ":")]
    case '*' => [One(STAR_NORELIN, "*_norelin"), One(STAR, "*")]
    case _ => if c in SINGLES then [One(SINGLES[c], [c])] else []
  }

  /** An operator the text starts with, and no longer one. */
  ghost predicate IsLongest(t: Token, s: string)
    requires |s| > 0
  {
    t in Operators(s[0]) && t.Word() <= s && forall u :: u in Operators(s[0]) && u.Word() <= s ==>
        |u.Word()| <= |t.Word()|
  }

  ghost predicate ReadsLongest(s: string)
    requires |s| > 0
  {
    var r := OpToken(s);
    && (r.Success? ==> IsLongest(r.value.token, s) && r.value.length == |r.value.token.Word()|)
    && (r.Failure? ==> forall u :: u in Operators(s[0]) ==> !(u.Word() <= s))
  }

  /** The operator that is read is the longest one there, and none is read exactly when the
      text starts with none. */
  lemma LongestOperator(s: string)
    requires |s| > 0
    ensures ReadsLongest(s)
  {
    hide ReadsLongest;
    match s[0]
    case '|' => LongestBar(s);
    case '=' => LongestEquals(s);
    case '<' => LongestLess(s);
    case '>' => LongestGreater(s);
    case '&' => LongestAmpersand(s);
    case '!' => LongestBang(s);
    case '~' => LongestTilde(s);
    case '-' => LongestMinus(s);
    case ':' => LongestColon(s);
    case '.' => LongestDots(s);
    case '*' => LongestStar(s);
    case _ => LongestSingle(s);
  }

  lemma LongestBar(s: string)
    requires |s| > 0 && s[0] == '|'
    ensures ReadsLongest(s)
  {}

  lemma LongestEquals(s: string)
    requires |s| > 0 && s[0] == '='
    ensures ReadsLongest(s)
  {}

  lemma LongestLess(s: string)
    requires |s| > 0 && s[0] == '<'
    ensures ReadsLongest(s)
  {}

  lemma LongestGreater(s: string)
    requires |s| > 0 && s[0] == '>'
    ensures ReadsLongest(s)
  {}

  lemma LongestAmpersand(s: string)
    requires |s| > 0 && s[0] == '&'
    ensures ReadsLongest(s)
  {}

  lemma LongestBang(s: string)
    requires |s| > 0 && s[0] == '!'
    ensures ReadsLongest(s)
  {}

  lemma LongestTilde(s: string)
    requires |s| > 0 && s[0] == '~'
    ensures ReadsLongest(s)
  {}

  lemma LongestMinus(s: string)
    requires |s| > 0 && s[0] == '-'
    ensures ReadsLongest(s)
  {}

  lemma LongestColon(s: string)
    requires |s| > 0 && s[0] == ':'
    ensures ReadsLongest(s)
  {}

  lemma LongestDots(s: string)
    requires |s| > 0 && s[0] == '.'
    ensures ReadsLongest(s)
  {}

  lemma LongestStar(s: string)
    requires |s| > 0 && s[0] == '*'
    ensures ReadsLongest(s)
  {
    NorelinAfterStar(s);
    var all := Operators(s[0]);
    assert forall u :: u in all ==> u == all[0] || u == all[1];
  }

  lemma NorelinAfterStar(s: string)
    requires |s| > 0 && s[0] == '*'
    ensures NORELIN <= s[1..] <==> "*_norelin" <= s
  {
    var star := "*_norelin";
    assert |star| == 9 && star[0] == '*' && star[1..] == NORELIN;
    if NORELIN <= s[1..] {
      assert s[..9] == [s[0]] + s[1..][..8] == [star[0]] + star[1..] == star;
    }
    if star <= s {
      assert s[1..][..8] == s[..9][1..];
    }
  }

  lemma LongestSingle(s: string)
    requires |s| > 0 && s[0] !in "|=<>.*&!~-:"
    ensures ReadsLongest(s)
  {
    assert s[..1] == [s[0]];
    assert Operators(s[0]) == if s[0] in SINGLES then [One(SINGLES[s[0]], [s[0]])] else [];
  }

  /** Whether `_norelin` is next, from its first character and a slice. */
  lemma NorelinIsSlice(s: string)
    ensures NORELIN <= s <==> |s| > 0 && s[0] == '_' && s[..if 8 <= |s| then 8 else |s|] == NORELIN
  {
    assert |NORELIN| == 8 && NORELIN[0] == '_';
    if NORELIN <= s {
      assert s[..8] == NORELIN;
    }
  }

  /** The first token of s, which starts with neither space nor comment. */
  function FirstToken(s: string): (r: Result<Lexed>)
    requires |s| > 0
    ensures r.Success? ==> 0 < r.value.length <= |s|
  {
    if IsDigit(s[0]) then Success(NumberToken(s))
    else if IsWordStart(s[0]) then Success(WordToken(s))
    else if s[0] == '"' then
      var r := StringBody(s[1..]);
      if r.Failure? then Failure(r.error)
      else Success(Lexed(Token(STRING, r.value.value), 1 + r.value.length))
    else if s[0] == '@' then
      if |s| > 1 && IsWordStart(s[1]) then
        var k := WordLength(s[1..]);
        Success(Lexed(Token(ANNOTATION, s[1..1 + k]), 1 + k))
      else Failure(BadAnnotation)
    else OpToken(s)
  }

  const END: Token := Token(EOF, "")

  function Cons(t: Token, r: Result<seq<Token>>): Result<seq<Token>> {
    if r.Failure? then r else Success([t] + r.value)
  }

  /** The tokens of s. */
  function Lex(s: string): (r: Result<seq<Token>>)
    decreases |s|
  {
    var rest := Skip(s);
    if rest.Failure? then Failure(rest.error)
    else if |rest.value| == 0 then Success([END])
    else
      var t := FirstToken(rest.value);
      if t.Failure? then Failure(t.error)
      else Cons(t.value.token, Lex(rest.value[t.value.length..]))
  }

  lemma {:induction false} LexEndsWithEof(s: string)
    ensures Lex(s).Success? ==>
      |Lex(s).value| > 0 && Lex(s).value[|Lex(s).value| - 1] == END
      && forall i :: 0 <= i < |Lex(s).value| - 1 ==> Lex(s).value[i].Type() != EOF
    decreases |s|
  {
    hide FirstToken, Skip;
    var rest := Skip(s);
    if rest.Success? && |rest.value| > 0 {
      var t := FirstToken(rest.value);
      if t.Success? {
        LexEndsWithEof(rest.value[t.value.length..]);
        NotEof(rest.value);
      }
    }
  }

  lemma NotEof(s: string)
    requires |s| > 0 && FirstToken(s).Success?
    ensures FirstToken(s).value.token.Type() != EOF
  {
    hide StringBody, WordLength, Op, OpToken;
    assert EOF !in KEYWORDS.Values;
    if OpToken(s).Success? { OperatorNotEof(s); }
  }

  lemma OperatorNotEof(s: string)
    requires |s| > 0 && OpToken(s).Success?
    ensures OpToken(s).value.token.Type() != EOF
  {
    assert EOF !in SINGLES.Values;
  }
}
